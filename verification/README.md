# Verification model

This project models the parts of the API-discovery library that decode, resolve, cache, rank
and index API descriptions, and proves what each part promises for every input or every run.
It is written in Dafny 4.11; `dafny verify dfyconfig.toml` verifies all of it.

## What is modelled

- **Protobuf front ends** (`grpcproto`).  `WireFormat` defines what the binary decoder reads
  from bytes: varints modulo 2^64, length-delimited nesting, a shared work budget and a depth
  limit.  `WireReader` and `WireParser` are the cursor and the parse functions as the source
  writes them, proved equal to that definition.  `Descriptors` is the encoder's side.
  `ProtoLexer`, `ProtoTextSpec` and `ProtoTextParser` do the same for `.proto` text, with its
  recovery loops, and `ProtoSource` is the printer's side.
- **GraphQL front end** (`graphql`).  `GraphQLLexer`, `GraphQLSpec` and `GraphQLParser` are the
  lexer and the parser, `GraphQLSource` and `OperationSource` the printer's side, `OperationIDs`
  duplicate numbering and the operations added for schema roots.
- **Schema resolver** (`inventory_request.go`).  `SchemaSpec` says what resolving returns;
  `SchemaHeap` and `SchemaResolver` are the resolver on maps in memory that documents and
  copies share.
- **Request fields** (`inventory_request.go`, `text.go`).  `RequestFieldSpec` and
  `RequestFields` are the collection with its running list; `RequestPlaces` defines the same
  list from positions in the schema tree.
- **Cache** (`sqlitecache`).  Tables are finite maps with access times; `CacheSpec` gives a
  step for every call, `Cache` the calls as methods on a state.  A database outlives the caches
  that open it, each with its own limits.
- **Context packer** (`authoring_api.go`): `PackerSpec`, `Packer`.
- **Catalog** (`catalog`): validators, the security report, the inspection status, the map
  index and the generated indexes.
- **Refresh corrections** (`catalog_refresh_corrections.go`, `validation.go`): `RefreshSpec`
  and `RefreshTree`, which rewrites a tree of maps in memory in place.

Each imperative member is proved equal to a specification function, and the properties below
are proved about those functions.  What the functions return is also said without them, from the
inputs alone: `SchemaMeaning` for resolved schemas, `CacheHistory` and `CacheRecency` for lives of
a cache, `RankedContext` and `PackerFailures` for ranked contexts, `SecurityRows` for reports,
`FinishedModels` and `FinalNames` for finished models, `FieldTexts` for request fields.  Sanitizing, text scoring, encoded sizes of single
operations, digests, key hashes, clock readings and the deadline of a context are parameters.

## Findings

Properties that the code does not have on all inputs, each with an input that shows it and the
exact condition under which it holds:

- A service before the `package` statement of its file is read outside the package, while the
  descriptor compiled from the file has it inside: the parser passes on the package it has read
  so far (grpcproto/parse.go:426-428, 447-451).  `EarlyServices.PackageMissed`,
  `ProtoAgreement.FrontEndsAgreeExactly`.
- A negative enum number survives in a descriptor set but is read as 0 from `.proto` text:
  the sign stops the number (grpcproto/parse.go:646-647).  `SignedEnums.NegativeNumberLost`,
  `ProtoAgreement.EnumsAgreeExactly`.
- A type named relative to the package is kept as it is written by the reader of text, while a
  descriptor has its full name (grpcproto/parse.go:484-511, 575-621).
  `RelativeNames.RelativeNameKept`, `ProtoAgreement.FilesAgreeExactly`.
- The reader of text skips the options of a field, so that a `json_name` of its own is lost, which
  the descriptor keeps; map fields differ too (grpcproto/parse.go:575-621).
  `JsonNames.JsonNameMissed`, `ProtoOutlines.FieldAgreesExactly`.
- `import "public"` and `import "weak"` are dropped: the path is taken for the modifier, whose
  kind is not looked at (grpcproto/parse.go:430-438).  `ProtoTextProofs.ImportExactly`.
- A cached spec that is intact is refused as corrupt by a cache that was opened with smaller
  byte limits than the one that stored it; opening prunes rows by count only
  (sqlitecache/cache.go:282-288, 300-306).  `CacheProofs.SmallerLimitRefuses`,
  `CacheProofs.HitIsLatest`.
- GraphQL operation IDs repeat when an operation is named like another with the number that
  duplicate numbering gives it, which the lexer allows because it reads numbers as names
  (graphql/parse.go:432-441, 1032-1054).  `NumberedQueries.NumberedNameClashes`,
  `OperationIDs.AllDistinctExactly`.
- A union takes every name up to the next brace for a member, `type T` of the definition after it
  included, whose body is then read as a query: the check for the start of a definition comes
  after names are taken (graphql/parse.go:626-640).  `UnionTypes.TypeAfterUnionLost`,
  `UnionTypes.UnionExactly`.
- A default value runs up to the next name before a colon, so that it takes in the dollar sign of
  the next variable (graphql/parse.go:717-727, 800-820).  `QueryMeaning.DollarInDefault`,
  `QueryMeaning.DefaultExactly`.
- For the same reason it takes in the description of the next input field, which then has none
  (graphql/parse.go:569-587).  `InputDefaults.DescriptionSwallowed`,
  `InputDefaults.DescriptionExactly`.
- The type condition of an inline fragment is recorded as a selected field: only `on` is taken
  for the name of a fragment (graphql/parse.go:768-783).  `QueryMeaning.ConditionSelected`,
  `QueryMeaning.SelectionsAreFieldsExactly`.
- A field of a `.proto` message whose number is missing takes the statement after it along: the
  semicolon is taken for the number (grpcproto/parse.go:597-600).
  `ProtoRecovery.MissingNumberTakesNext`; other malformed fields do not,
  `ProtoRecovery.BrokenFieldIgnored`.
- A property without a name at the root of a request schema lists its children under their own
  names, so that a required field can stand below one that is not required
  (inventory_request.go:477-480).  `RequestFieldProofs.EmptyNameBreaksChain`,
  `RequestFieldProofs.ChainedExactly`.
- `FindSpecReference` trims the provider ID for one of its lookups only, so that white space
  around it hides the spec references while the other lookups of the index ignore it
  (catalog/index.go:96-109).  `CatalogIndex.SpacedSlackMissed`,
  `CatalogIndex.SpecLookupExactly`.

## Model

| member | source | states |
|---|---|---|
| `WireFormat.VarintRange` | grpcproto/wire.go:406-420 | whatever bits the ten bytes hold, the value read is a 64-bit word |
| `WireProofs.VarintInverts` | grpcproto/wire.go:406-420 | reading the Base 128 encoding of a 64-bit word gives the word and stops after it |
| `WireProofs.FieldsRoundTrip` | grpcproto/wire.go:190-234 | decoding the encoding of any field tree gives its known fields in order, at every level, exactly when its tags fit the budget and its nesting fits the limit; otherwise one of the two limit errors |
| `WireProofs.FieldsConcatenate` | grpcproto/wire.go:16-39 | a run of whole fields followed by more bytes decodes to its items followed by the decoding of the rest, with the budget carried on |
| `WireProofs.FieldsShift` | grpcproto/wire.go:354-363 | a decoding that succeeds does so identically with more work already charged, as long as the shared budget lasts |
| `WireProofs.WorkBounded` | grpcproto/wire.go:344-445 | the tags charged across all nested readers, on success and on failure, are at most the bytes of the input |
| `WireProofs.UnknownFieldIgnored` | grpcproto/wire.go:422-437 | a well-formed field with an unrecognised number, inserted at any field boundary, changes nothing but one unit of work |
| `WireReader.Reader.ReadVarint` | grpcproto/wire.go:406-420 | the loop that accumulates seven bits a byte reads what the definition of varints says and keeps its cursor inside the slice |
| `WireReader.Reader.ReadTag` | grpcproto/wire.go:354-363 | a tag is charged before it is read, and a successful read moves the cursor on |
| `WireReader.Reader.ReadBytes` | grpcproto/wire.go:373-384 | a length is checked against what is left before the slice is taken |
| `WireReader.Reader.ReadInt` | grpcproto/wire.go:398-404 | a varint field is read modulo 2^64 as a signed integer, another wire type is refused |
| `WireReader.Reader.Skip` | grpcproto/wire.go:422-437 | exactly the payload of wire types 0, 1, 2 and 5 is skipped; other wire types are an error |
| `WireReader.Reader.Advance` | grpcproto/wire.go:439-445 | the cursor moves by exactly n, or the end of input is reported and it stays inside the slice |
| `WireParser.ParseEnumValue` | grpcproto/wire.go:318-342 | returns the value built from the decoded fields, or the error and the charge of the decoding |
| `WireParser.ParseEnum` | grpcproto/wire.go:283-316 | the same for enums, with the dotted full name |
| `WireParser.ParseField` | grpcproto/wire.go:242-281 | the same for message fields |
| `WireParser.ParseMessage` | grpcproto/wire.go:184-240 | the same for messages, nested ones included, up to the depth limit |
| `WireParser.ParseMethod` | grpcproto/wire.go:146-178 | the same for methods |
| `WireParser.ParseService` | grpcproto/wire.go:111-144 | the same for services |
| `WireParser.ParseFile` | grpcproto/wire.go:50-109 | the same for files |
| `WireParser.ParseSet` | grpcproto/wire.go:12-48 | parsing a descriptor set returns the finalized model, or the error, that decoding and building define |
| `DescriptorProofs.SetRoundTrip` | grpcproto/wire.go:12-342 | encoding any descriptor set in ascending field order and parsing it gives its files, messages, fields, enums and services with full names, up to sorting, exactly when the set stays within the budget and the nesting limit |
| `DescriptorProofs.SetsConcatenate` | grpcproto/wire.go:12-48 | two concatenated descriptor sets parse to the concatenation of their files, before sorting |
| `FinalNames.FinalizedSays` | grpcproto/parse.go:762-820 | finalizing keeps every file, service, call, message and field, sorts files, services and messages, and gives each call the package, names, operation ID and selector of its service and each field without a JSON name that of its words |
| `FinalNames.ConcludeExactly` | grpcproto/wire.go:40-48 | the files of a descriptor set are accepted exactly when one of them has a service, message or enum |
| `FinalNames.JsonNameWords` | grpcproto/parse.go:871-880 | the default JSON name is the words between the underscores, all but the first with a capital letter in front |
| `FinalNames.MethodSelectorsTell` | grpcproto/selectors.go:15-17 | two calls have one selector exactly when they have one name in one service, whatever characters the names hold |
| `ProtoLexer.LexProto` | grpcproto/parse.go:283-372 | the lexing loop returns the tokens that the grammar of the remaining input defines, or refuses the input |
| `ProtoLexer.LexRendered` | grpcproto/parse.go:283-372 | lexing printed tokens gives them back, exactly when they stay within the limits on tokens and nesting |
| `ProtoLayout.LayoutIgnored` | grpcproto/parse.go:304-325 | lexing a file gives its tokens whatever white space and comments stand between them, exactly when they stay within the limits |
| `ProtoTextParser.SkipStatement` | grpcproto/parse.go:682-698 | the recovery loop stops where the definition says, always after at least one token |
| `ProtoTextParser.ParseField` | grpcproto/parse.go:575-621 | reads the field, and leaves the cursor, as the definition says, on malformed fields too |
| `ProtoTextParser.ParseEnum` | grpcproto/parse.go:623-652 | the same for enums and their recovery |
| `ProtoTextParser.ParseMessage` | grpcproto/parse.go:513-553 | the same for messages, nested ones included |
| `ProtoTextParser.ParseRPC` | grpcproto/parse.go:484-511 | the same for calls with their streaming flags |
| `ProtoTextParser.ParseService` | grpcproto/parse.go:461-482 | the same for services |
| `ProtoTextParser.ParseFileTokens` | grpcproto/parse.go:416-459 | the same for whole files; the loop ends on every token list |
| `ProtoTextParser.ParseText` | grpcproto/parse.go:248-267 | text is refused or parsed into the finalized file that lexing and parsing define |
| `ProtoTextProofs.TokensRoundTrip` | grpcproto/parse.go:416-672 | parsing the tokens of any canonical file gives what the file stands for |
| `ProtoTextProofs.ImportExactly` | grpcproto/parse.go:430-438 | an import without a modifier is recorded exactly when its path is neither `public` nor `weak` |
| `ProtoRecovery.BrokenFieldIgnored` | grpcproto/parse.go:575-621 | a field of a message that lacks its name, its equals sign or its number is passed over up to its semicolon or block, and what stands before and after it is read as if it were not there |
| `ProtoRecovery.BrokenChoiceIgnored` | grpcproto/parse.go:555-573 | the same in a oneof |
| `ProtoRecovery.BrokenValueIgnored` | grpcproto/parse.go:623-652 | the same for an enum value without an equals sign |
| `ProtoRecovery.BrokenCallIgnored` | grpcproto/parse.go:461-489 | the same for a call without a name and other statements of a service |
| `ProtoRecovery.UnknownStatementIgnored` | grpcproto/parse.go:454-457 | the same for statements of a file that are not known, with nested blocks in them |
| `ProtoRecovery.MissingNumberTakesNext` | grpcproto/parse.go:594-600 | a field with a semicolon in place of its number takes the statement after it along |
| `ProtoRecovery.StrayBraceRefused` | grpcproto/parse.go:682-698 | a file with a closing brace where a statement should stand is refused, whatever follows |
| `ProtoAgreement.TextRoundTrip` | grpcproto/parse.go:248-372 | printing any canonical file, lexing and parsing it returns its metadata, exactly when its tokens stay within the limits and there is some metadata |
| `ProtoAgreement.FilesAgreeExactly` | grpcproto/parse.go:416-511 | a file, with any statements and packages, and the descriptor compiled from it have, after finalizing, the same services, method IDs, selectors, types and streaming flags exactly when every service stands where the package is already that of the file and every call writes its types in full |
| `ProtoAgreement.ScopedExactly` | grpcproto/parse.go:426-428 | with at most one package statement all services are in scope exactly when none stands before it; `syntax`, imports, options and types may, and the package may be missing |
| `ProtoAgreement.FrontEndsAgreeExactly` | grpcproto/parse.go:248-267 | the text of a file and the bytes of its descriptor set, run through the two front ends, give the same services exactly when no service stands before the package statement and every call writes its types in full |
| `EarlyServices.PackageMissed` | grpcproto/parse.go:447-451 | a text with a service before its package, and its descriptor set, both accepted, give that service two full names |
| `RelativeNames.RelativeNameKept` | grpcproto/parse.go:484-503 | a text with a call whose request type is relative to its package, and its descriptor set, both accepted, give that type two names |
| `ProtoOutlines.MessageAgreesExactly` | grpcproto/parse.go:513-553 | under one parent the front ends agree on a message, with its fields and all that is nested in it, exactly when its fields and enums, at any depth, can be read alike |
| `ProtoOutlines.TypesAgreeExactly` | grpcproto/parse.go:416-459 | a file and its descriptor have, after finalizing, the same messages exactly when every message stands where the package is already that of the file and can be read alike, and the same enums exactly when that holds of every enum |
| `ProtoOutlines.TypesReadAlikeExactly` | grpcproto/parse.go:248-267 | the same for the text of a file and the bytes of its descriptor set, run through the two front ends |
| `ProtoOutlines.FieldAgreesExactly` | grpcproto/parse.go:575-621 | the front ends agree on a field, by name, number, scalar type or full type name, JSON name and whether it is repeated or required, exactly when it is no map, its options leave it the default JSON name, and a type that is not scalar is written in full, with a dot inside or a capital letter first |
| `JsonNames.JsonNameMissed` | grpcproto/parse.go:617-620 | a text with a field that has a JSON name of its own, and its descriptor set, both accepted, give that field two JSON names |
| `ProtoAgreement.EnumsAgreeExactly` | grpcproto/parse.go:623-652 | the front ends agree on an enum exactly when none of its numbers is negative |
| `SignedEnums.NegativeNumberLost` | grpcproto/parse.go:640-650 | a text and a descriptor set of one enum with value -1, both accepted, read as 0 and as -1 |
| `GraphQLLexer.LexGraphQL` | graphql/parse.go:306-396 | the lexing loop returns the tokens, or the refusal, that the grammar of the remaining input defines |
| `GraphQLLexer.LexRendered` | graphql/parse.go:306-396 | lexing printed tokens, numbers among them, gives them back exactly when they stay within the limits |
| `GraphQLLayout.LayoutIgnored` | graphql/parse.go:328-342 | lexing a document gives its tokens whatever white space, commas and comments stand between them, exactly when they stay within the limits |
| `GraphQLLayout.BlockStringRead` | graphql/parse.go:398-405 | a block string is one token, its text without the white space around it |
| `GraphQLParser.ParseTypeRefDepth` | graphql/parse.go:738-760 | the parser of type references computes the definition and leaves the cursor where it says |
| `GraphQLParser.ParseArguments` | graphql/parse.go:683-732 | the same for argument and variable lists |
| `GraphQLParser.ParseFields` | graphql/parse.go:525-556 | the same for the fields of object and interface types |
| `GraphQLParser.ParseInputFields` | graphql/parse.go:558-590 | the same for input fields |
| `GraphQLParser.ParseEnumValues` | graphql/parse.go:592-616 | the same for enum values |
| `GraphQLParser.ParseUnionMembers` | graphql/parse.go:623-641 | the same for union members |
| `GraphQLParser.ParseSchemaBlock` | graphql/parse.go:498-523 | the same for schema blocks |
| `GraphQLParser.ParseSelections` | graphql/parse.go:762-798 | the same for selection sets, each name once |
| `GraphQLParser.ParseOperationText` | graphql/parse.go:643-681 | the same for operations and anonymous queries |
| `GraphQLParser.ParseDocumentTokens` | graphql/parse.go:449-496 | the same for documents; the loop ends on every token list |
| `GraphQLParser.CompactAll` | graphql/parse.go:1007-1030 | merging definitions of one name through a map of positions gives what merging them one by one gives |
| `GraphQLParser.ParseText` | graphql/parse.go:267-291 | text is refused or gives the compacted, extended and sorted model |
| `GraphQLProofs.TypeReadersAgree` | graphql/parse.go:226-265 | for every type expression below the nesting limit the parser on its tokens and the introspection reader on its encoding agree on display, required and list, and the parser stops exactly after it; at the limit the parser fails |
| `GraphQLProofs.SchemaRoundTrip` | graphql/parse.go:449-621 | printing any list of distinctly named definitions and schema blocks, lexing and parsing it returns the same types sorted by name, exactly when it stays within the limits and defines a type |
| `OperationProofs.DocumentRoundTrip` | graphql/parse.go:449-496 | printing any document of definitions, extensions, fragments and operations, with directives, arguments, aliases, nested selections, variables and default values, lexing and parsing it gives the model it stands for, exactly when it stays within the limits and defines a type or an operation |
| `QueryMeaning.SelectedExactly` | graphql/parse.go:762-798 | the selection names of an operation are its fields, without aliases, and the type conditions of its inline fragments, each once |
| `QueryMeaning.SelectionsAreFieldsExactly` | graphql/parse.go:762-798 | they are all fields exactly when every inline fragment is on a type named like one of the fields |
| `QueryMeaning.ConditionSelected` | graphql/parse.go:768-783 | an accepted document that selects no field called User, but whose operation has it |
| `QueryMeaning.DefaultExactly` | graphql/parse.go:708-732 | the default value of a variable is as it is written exactly when it has none, it is the last variable or a directive follows; else the dollar sign of the next variable is added |
| `QueryMeaning.DollarInDefault` | graphql/parse.go:800-820 | an accepted document in which the default value 1 is read as 1$ |
| `QueryMeaning.RootsDeclared` | graphql/parse.go:498-523 | a schema block declares for each kind the root type of its last entry for it |
| `QueryMeaning.BareOperationIgnored` | graphql/parse.go:643-672 | an operation that selects nothing is passed over |
| `QueryMeaning.UnclosedRefused` | graphql/parse.go:840-857 | a document that ends inside a block that is passed over is refused |
| `InputDefaults.DirectedField` | graphql/parse.go:822-829 | a field of a type means with directives what it means without them |
| `InputDefaults.DefaultedParsed` | graphql/parse.go:558-590 | the input fields of a definition are read with their types, default values and directives; a default value takes in the description that follows it |
| `InputDefaults.DescriptionExactly` | graphql/parse.go:800-820 | an input field keeps its description exactly when the field before it has no default value, a directive stands between them, or there is nothing to keep |
| `InputDefaults.DescriptionSwallowed` | graphql/parse.go:569-585 | an accepted document in which the description of an input field is read as part of the default value before it |
| `UnionTypes.UnionExactly` | graphql/parse.go:623-641 | in a document the members of a union are read as they are written exactly when nothing follows it, or a query without a keyword |
| `UnionTypes.TypeAfterUnionLost` | graphql/parse.go:623-641 | an accepted document whose type T is lost, its name a member of the union before it |
| `OperationIDs.CompactOperations` | graphql/parse.go:1032-1054 | numbering through a map of counters gives each operation the count of its base so far |
| `OperationIDs.AddSchemaRootOperations` | graphql/parse.go:930-977 | the operations of the three roots are added in order, except those whose ID is taken |
| `OperationIDs.DistinctExactly` | graphql/parse.go:1032-1054 | duplicate numbering gives distinct IDs exactly when no operation is named like another with one of its numbers |
| `OperationIDs.RootsDistinct` | graphql/parse.go:930-977 | adding root fields never repeats an ID |
| `OperationIDs.AllDistinctExactly` | graphql/parse.go:989-1054 | the IDs of the final, sorted list are distinct exactly under the same condition |
| `OperationIDs.DotFreeNames` | graphql/parse.go:989-996 | names without dots meet it |
| `OperationIDs.OperationsFound` | graphql/selectors.go:26-37 | for dot-free names all IDs are distinct, and looking up or resolving the ID of an operation returns that operation |
| `FinishedModels.TypesSay` | graphql/parse.go:1007-1030 | the types of a model are, for each name that is given, one type with the fields, input fields, values and members of all definitions of that name and the first description among them |
| `FinishedModels.FinishedOperationsSay` | graphql/parse.go:930-977 | the operations of a model are those of the document, named and numbered, and one for each field of its root types that no operation of the document and no earlier field stands for, with kind, name, description, type, root type and selector of the field; there are no others |
| `FinishedModels.FinishedRootFields` | graphql/parse.go:952-973 | each field with a name of a root type, declared or by default, has an operation with its ID |
| `FinalNames.FieldSelectorsTell` | graphql/selectors.go:10-18 | two fields have one selector exactly when they have one name in one type; the same for operations, and no field has the selector of an operation |
| `FinalNames.ResolvesExactly` | graphql/selectors.go:76-96 | resolving a text gives the first operation that goes by it: by its ID, alone or after `operation:`, its name or its selectors |
| `NumberedQueries.QueriesRoundTrip` | graphql/parse.go:643-672 | the text of short queries, named by names or numbers, is parsed into their operations |
| `NumberedQueries.NumberedNameClashes` | graphql/parse.go:1032-1054 | a document the parser accepts whose operations do not have distinct IDs |
| `SchemaProofs.ResolutionBounded` | inventory_request.go:238-262 | on every document, cyclic ones included, and however the run ends, at most 4096 nodes are expanded, none deeper than 6; the work limit is reported exactly when a node was not expanded because of it, each limit at most once, and a run is cancelled exactly by the last check of its context |
| `SchemaProofs.NoIssueMeansExpanded` | inventory_request.go:238-328 | a run that reports no issue returns a schema without local references and composition lists at every position; resolving that again, against any document, returns it unchanged without an issue |
| `SchemaRuns.ResolutionSays` | inventory_request.go:238-328 | a run that is not cancelled reports no depth, limit, cycle or unresolved issue exactly when it stays within the work limit and everything it visits lies within six levels and finds its references; then the result is, level by level, what the schema, the target of its reference and its branches give together, and a branch selection is reported exactly when a choice is visited |
| `SchemaRuns.ResolvedHolds` | inventory_request.go:238-384 | after such a run a name is a property of the result exactly when the schema, the target of its reference or a branch of its lists offers it, recursively; a name is required exactly when the schema, the target or an `allOf` branch demands it; any other keyword is the one found first in schema, target and branches |
| `SchemaMeaning.SaysOffers` | inventory_request.go:363-371 | the same for properties, for any schema and level below the limit |
| `SchemaMeaning.SaysDemands` | inventory_request.go:372-376 | the same for required names: those of `allOf` branches count, those of `oneOf` and `anyOf` branches do not |
| `SchemaMeaning.SaysKeyword` | inventory_request.go:377-381 | the same for any other keyword |
| `JsonPointers.PointerFinds` | inventory_request.go:330-351 | the reference written for any list of keys, whatever characters they hold, finds the object there, and nothing when there is none |
| `SchemaHeap.Copy` | inventory_request.go:386-392 | the copy is a new map with the same entries, and nothing else changes |
| `SchemaResolver.Overlay` | inventory_request.go:353-361 | a new map: the base, with every entry of the overlay but its reference put over it |
| `SchemaResolver.Merge` | inventory_request.go:363-384 | in whatever order the entries are visited, a new map with properties united, required names united when asked for, and other entries of the base kept |
| `SchemaResolver.Resolver.Find` | inventory_request.go:330-351 | following the segments of a reference finds the map the pointer means, a map of the document, or none |
| `SchemaResolver.Resolver.Resolve` | inventory_request.go:238-328 | computes what the specification says, on every return path restores the active references, and returns only new maps and maps of the document or the argument |
| `SchemaResolver.ResolveLocalSchemaRefs` | inventory_request.go:230-236 | the entry point returns the specified schema or error and leaves every map of the document and of its argument unmodified, on errors too |
| `RequestFieldProofs.CredentialBelow` | text.go:75-90 | whatever stands below a credential-like path is credential-like |
| `RequestPlaces.CollectKeeps` | inventory_request.go:453-494 | the running list with its early returns is the list of places in tree order, cut at sixty |
| `RequestPlaces.PlacesExactly` | inventory_request.go:453-494 | the places are exactly the positions that looking up their steps finds and whose path is not credential-like, with the mark the lookup gives |
| `RequestPlaces.PlacesOnce` | inventory_request.go:453-494 | no position is listed twice |
| `RequestPlaces.PlacesChained` | inventory_request.go:474-481 | whatever the properties are called, a listed place is required only if every listed place above it in the tree is |
| `RequestPlaces.TextsNest` | inventory_request.go:477-489 | for names without dots and opening brackets one path string stands beneath another exactly when the positions they show do |
| `RequestFieldProofs.ChainedExactly` | inventory_request.go:453-494 | for such names a required field has only required fields above it exactly when no two listed places clash |
| `RequestFieldProofs.ClashNeedsNameless` | inventory_request.go:477-480 | places clash only when the root has a property without a name |
| `RequestFieldProofs.FieldsGuarantee` | inventory_request.go:441-494 | the list has at most sixty fields sorted by path, describes each of the first sixty listed places once, has no credential-like path and none below one, and is chained as above |
| `FieldTexts.FieldsSay` | inventory_request.go:425-505 | a listed field shows path and mark of one of the first sixty listed places and type, format, reference and description of the schema there, and each of these places is shown |
| `RequestFieldProofs.EmptyNameBreaksChain` | inventory_request.go:477-480 | a schema with a nameless root property whose list is not chained |
| `RequestFields.Collector.CollectFields` | inventory_request.go:453-494 | the recursion that appends to one list extends it as specified |
| `RequestFields.RequestFieldSummaries` | inventory_request.go:441-451 | returns the sorted, cut list |
| `Cache.Cache.constructor` | sqlitecache/cache.go:70-132 | opening normalizes the limits and prunes what the file held |
| `Cache.Cache.StoreSpec` | sqlitecache/cache.go:326-430 | makes the checks in order and takes the step of the state machine: rows for both URLs, then pruning |
| `Cache.Cache.LoadSpec` | sqlitecache/cache.go:260-324 | returns what the lookup defines; only a hit touches its row |
| `Cache.Cache.StoreSearch` | sqlitecache/cache.go:170-258 | stores the report and its results and prunes, or stores nothing when the record is too large |
| `Cache.Cache.LoadSearch` | sqlitecache/cache.go:141-168 | returns what the lookup defines; a hit touches the query and its results |
| `Cache.Cache.StoreCatalogArtifact` | sqlitecache/cache.go:434-538 | stores the row with the digest and size of the file and prunes, exactly when all checks pass |
| `Cache.Cache.ListCatalogArtifacts` | sqlitecache/cache.go:542-618 | returns the rows in the order of their keys, and touches every one, exactly when all pass their checks |
| `Cache.Cache.PruneAll` | sqlitecache/cache.go:878-900 | every table keeps the first rows by access time and key, up to its limit |
| `LruTable.PruneSize` | sqlitecache/cache.go:878-900 | pruning leaves exactly the limit, or all rows when they were fewer |
| `LruTable.PruneIsLru` | sqlitecache/cache.go:878-900 | every row that stays was used more recently than every row that goes, ties by key |
| `CacheProofs.HitIsLatest` | sqlitecache/cache.go:260-324 | over any life of the database with inline content, earlier caches with other limits included, a row that is present and not expired is the document of the latest successful store for that URL, with its digest and byte count; a load hits exactly when it is within the limits of this cache, which it always is when all caches had the same limits |
| `CacheProofs.SearchIsLatest` | sqlitecache/cache.go:141-168 | the same for searches, by the hash of the normalized key |
| `CacheHistory.KeysTellSearches` | sqlitecache/cache.go:692-703 | with a hash that tells keys apart two searches share a row exactly when trimmed query, source (none read as auto), limit (none read as 10), probe and provider URL agree |
| `CacheHistory.FoundIsStored` | sqlitecache/cache.go:141-168 | over any life of the database a search that is found is answered, unchanged and fresh, by the last call that stored an answer to a search that agrees with it on these five |
| `CacheHistory.StoreThenFind` | sqlitecache/cache.go:170-258 | an answer stored with a newer clock reading than all accesses is found by every search that agrees on these five |
| `CacheHistory.StoredExactly` | sqlitecache/cache.go:326-378 | a spec is stored exactly when its URLs, content, digest, byte count and sizes pass their checks, and then as it is, under its URLs |
| `CacheHistory.HitIsStored` | sqlitecache/cache.go:260-324 | over any life of the database a URL that is hit gives the spec that the last call stored under it, unchanged and fresh |
| `CacheHistory.ArtifactExactly` | sqlitecache/cache.go:434-538 | an artifact is stored exactly when its names, file, digest, byte count and sizes pass their checks, and then with trimmed names and the digest and size of the file |
| `CacheHistory.ListedIsStored` | sqlitecache/cache.go:542-618 | over any life of the database every artifact that is listed is what the last call stored under its IDs |
| `CacheRecency.HitAgain` | sqlitecache/cache.go:260-324 | after a hit the same document is hit again as long as it is fresh and fewer other URLs than the limit were stored or loaded since |
| `CacheRecency.FoundAgain` | sqlitecache/cache.go:141-168 | the same for searches |
| `CacheRecency.FindUsesResults` | sqlitecache/cache.go:155-168 | a search that is found uses the rows of its results and no other ones |
| `CacheRecency.FirstSeenStays` | sqlitecache/cache.go:232-250 | a row keeps its first-seen time through every call, as long as it is not pruned |
| `CacheProofs.SmallerLimitRefuses` | sqlitecache/cache.go:300-306 | a document that one cache stores and loads is refused by every cache opened after it with a smaller byte limit |
| `CacheProofs.ArtifactsAreLatest` | sqlitecache/cache.go:434-538 | over any life of the database every artifact row holds what the last successful store under its IDs wrote |
| `CacheProofs.KeyOrder` | sqlitecache/cache.go:878-900 | joining the IDs of an artifact by a NUL orders and tells apart pairs as the two columns do |
| `CacheProofs.ListingOrdered` | sqlitecache/cache.go:542-552 | over any life of the database the list has every artifact once, ordered by the two columns |
| `CacheProofs.StoreThenLoad` | sqlitecache/cache.go:326-430 | a store with a newer clock reading than all accesses is read back by a load of either of its URLs when the table has room for both |
| `CacheProofs.RunWithinLimits` | sqlitecache/cache.go:109-132 | whatever the cache held when it was opened, every table stays within its limit at every point of every run |
| `CacheProofs.LruInclusion` | sqlitecache/cache.go:878-900 | for the same run and clock readings, which need not be monotone, the spec and search rows under smaller limits are among those under larger ones, with equal access times, and so are the result rows when the limits on searches are equal |
| `CacheProofs.LargerCacheHits` | sqlitecache/cache.go:260-324 | raising the limits never turns a hit into a miss, nor changes what it returns |
| `CacheProofs.LargerCacheFinds` | sqlitecache/cache.go:141-168 | the same for searches |
| `CacheProofs.ResultsNeedEqualSearches` | sqlitecache/cache.go:141-168 | a run after which a cache of one search keeps a result row that a cache of two has pruned |
| `PackerProofs.RankedOrders` | authoring_api.go:230-238 | the ranking holds the same candidates, in rank order |
| `PackerProofs.SelectedExactly` | authoring_api.go:579-596 | an operation is selected exactly when a safe reference names it: joining path and ID by a NUL loses nothing |
| `PackerProofs.CostGrows` | prompt_safety.go:536-542 | including more operations never shrinks the encoding |
| `PackerProofs.BestRanked` | authoring_api.go:269-287 | of all sets within limit and budget the greedy packing is the best ranked |
| `PackerProofs.LeftOutExactly` | authoring_api.go:269-287 | a candidate is left out exactly when no reference names it and either those ranked before it used up the limit or it does not fit with the final set |
| `PackerProofs.BuildConserves` | authoring_api.go:414-437 | the documents hold exactly the operations of the included candidates, each once |
| `PackerProofs.SucceedsExactly` | authoring_api.go:133-268 | ranking succeeds exactly when the work budget holds, every reference is safe, no diagnostic is an error and the selected operations fit together |
| `PackerProofs.ContextGuarantees` | authoring_api.go:133-308 | on success the reported bytes are the encoded size and fit the budget, every selected operation appears exactly once, at most the limit of others appear, exactly those candidates are left out, and leaving out is reported |
| `PackerProofs.NamedOperationsChosen` | authoring_api.go:579-592 | every operation a reference names is in the context |
| `RankedContext.ContextSays` | authoring_api.go:133-308 | a successful context is that of the one ranking by text score of sanitized query, metadata and operation, references counting 1000, ties in document order: it takes every operation a reference names and, in that order, each other one for which the limit and the budget leave room, holds these and nothing else, and says what was changed and left out |
| `RankedContext.BetterMatchesTaken` | authoring_api.go:230-287 | an operation left out for the limit has no higher text score than any that is taken without being named |
| `RankedContext.RankingUnique` | authoring_api.go:230-238 | there is only one ranking |
| `PackerFailures.FailureSays` | authoring_api.go:133-268 | a ranking that fails has no documents and reports the first limit it breaks: too many documents or references, the first reference that sanitizing changes, the document that brings too many operations, an error of an operation, or the size of the operations that references name |
| `Packer.BuildDocuments` | authoring_api.go:414-437 | filling copies of the documents in rank order gives the specified documents |
| `Packer.PackAll` | authoring_api.go:263-287 | the loop over the include map with its tentative insertions gives the specified packing |
| `Packer.RankDocuments` | authoring_api.go:133-308 | the whole function returns the specified report |
| `Catalog.ValidateProviders` | catalog/provider.go:110-129 | accepts exactly the lists of valid providers in which no two share an ID or lookup key |
| `Catalog.ValidateOverlays` | catalog/overlay.go:50-66 | accepts exactly the lists of valid overlays with distinct IDs |
| `Catalog.ValidateClassifications` | catalog/bundle.go:94-111 | accepts exactly the valid lists with one record for each scope |
| `Catalog.MatchUnique` | catalog/provider.go:230-255 | at most one provider of a valid list answers to a key |
| `SecurityReport.BuildSecurityReport` | catalog/report.go:79-133 | the loops over the scope maps give the specified report or refusal |
| `SecurityReport.ScopesForProvider` | catalog/report.go:139-158 | in whatever order the map keys are visited, the scopes of the provider, sorted, each once |
| `SecurityReport.AggregateStatus` | catalog/report.go:211-229 | the loop over the dispositions gives the specified status of a provider |
| `SecurityReport.InspectionStatus` | catalog/inspection.go:304-323 | the inspection view computes the same status from its selected evidence |
| `SecurityReport.InspectProvider` | catalog/inspection.go:304-363 | that status is the one in the provider's row of the report |
| `SecurityProofs.OrderIndependent` | catalog/report.go:79-133 | success and the report are the same for every permutation of providers, overlays and classifications |
| `SecurityProofs.OneRowEach` | catalog/report.go:79-133 | the report has one row per provider, sorted by ID |
| `SecurityProofs.ConflictExactly` | catalog/report.go:160-229 | a provider is in conflict exactly when two overlays in one of its scopes differ in status |
| `SecurityProofs.MixedExactly` | catalog/report.go:211-229 | without a conflict it is mixed exactly when two scopes differ, and otherwise has the status of its scopes |
| `SecurityProofs.OwnEvidence` | catalog/inspection.go:325-363 | evidence of other providers does not matter |
| `SecurityProofs.ReportConflictExactly` | catalog/report.go:160-229 | both views say conflict for a row of a report exactly when two of its overlays differ in one scope |
| `SecurityRows.RowsSayEvidence` | catalog/report.go:79-229 | for every disposition of every row: if its scope has overlays that agree its status is theirs, whatever the classification; if they differ it is in conflict; without overlays it is that of the classification; the rows cover the scopes with evidence, each once, list the IDs, references and notes of their evidence, and a provider without any scope is unknown |
| `CatalogIndex.NewCatalogIndex` | catalog/index.go:21-57 | refuses what building the report refuses and otherwise fills the maps with the index of the catalog |
| `CatalogIndex.FindProviderAgrees` | catalog/index.go:83-92 | for every key the index finds the provider that the linear scan finds |
| `CatalogNames.NamesFind` | catalog/provider.go:230-255 | every provider of a valid catalog is found by its ID, its display name and each of its aliases |
| `CatalogNames.SpellingIgnored` | catalog/provider.go:230-255 | two keys find the same provider when they have the same words, whatever the white space and the case of letters |
| `CatalogIndex.OverlayLookupAgrees` | catalog/index.go:112-122 | the overlay lookup is the sorted list filtered by provider |
| `CatalogIndex.SecurityLookupAgrees` | catalog/index.go:126-135 | the security lookup gives the row of exactly that provider |
| `CatalogIndex.SpecLookupExactly` | catalog/index.go:96-109 | a spec reference is found exactly when the provider ID is given without surrounding white space and that provider has it |
| `CatalogIndex.SpacedProviderHidesSpecs` | catalog/index.go:96-109 | white space before a provider ID hides its spec references but not its security row |
| `CatalogIndex.SpacedSlackMissed` | catalog/index.go:96-109 | a catalog of one provider that is accepted and shows this |
| `GeneratedIndex.ValidateIDIndex` | catalog/builtin_data.go:105-117 | a generated ID index is accepted exactly when it is the inverse of the list of IDs |
| `GeneratedIndex.ValidateGroupIndex` | catalog/builtin_data.go:119-135 | a group index is accepted exactly when its groups partition all positions by owner |
| `GeneratedIndex.CountedInverse` | catalog/builtin_data.go:105-117 | counting and checking the entries suffices: by the pigeonhole principle no position is missing |
| `RefreshProofs.CheckerExactly` | validation.go:210-235 | the checker rejects exactly the trees with an external reference or nested too deep |
| `RefreshProofs.VisitCommutes` | catalog_refresh_corrections.go:232-244 | visiting an object before or after its children gives the same tree |
| `RefreshProofs.CorrectedOnce` | catalog_refresh_corrections.go:163-174 | correcting a corrected tree changes nothing |
| `RefreshProofs.CleanExactly` | catalog_refresh_corrections.go:232-244 | a tree stays as it is exactly when no object in it is one the visitor would change |
| `RefreshProofs.CorrectedNests` | catalog_refresh_corrections.go:232-244 | a correction never nests a document deeper |
| `RefreshProofs.PlaceholderSatisfiesChecker` | catalog_refresh_corrections.go:163-174 | within the nesting limit the placeholder correction changes a tree exactly when the checker rejects it, and the checker accepts the result; on any tree it leaves no external reference |
| `RefreshProofs.HighLevelOnce` | catalog_refresh_corrections.go:105-132 | the HighLevel correction adds the common schemas, leaves no object it would rewrite, changes nothing the second time, and changes nothing the first time exactly when there was nothing to do |
| `RefreshTree.Correction.Walk` | catalog_refresh_corrections.go:232-244 | the walk rewrites the maps of the tree in place into the corrected tree, and the flag is set exactly when something changed |
| `RefreshTree.ApplyPlaceholder` | catalog_refresh_corrections.go:163-174 | returns true exactly when there was an external reference, and leaves none |
| `RefreshTree.Bundle` | catalog_refresh_corrections.go:219-230 | reaches the objects of a path, creating what is missing, and adds the common schemas there that are missing; true exactly when one was |
| `RefreshTree.ApplyHighLevel` | catalog_refresh_corrections.go:105-132 | leaves the HighLevel-corrected tree in place and returns true exactly when the tree changed |

## Left out

- Downloading, DNS and host checks, search providers, the command line, overlay builders and local file walking.
- SQL text, migrations, write-ahead logging and database errors; tables are finite maps.
- Cache.Cache.StoreSpec: content that is given as a file path instead of inline.
- Cache.Cache.LoadSpec: content that is kept in a file instead of inline.
- Catalog.ValidateProviders: the checks of enumerated fields of a provider are one flag.
- Catalog.ValidateOverlays: the checks of schemes and requirements of an overlay are one flag.
- ProtoOutlines.FieldAgreesExactly: the kind of a type that is not scalar, which text does not have.
- Cleaning paths of catalog artifacts and reading their files, which are inputs of a call.
- Parsers of other formats, JSON and YAML decoding, descriptor JSON, and the choice of a parser by format.
- Introspection results other than type references.
- White space other than ASCII white space: `strings.TrimSpace` also strips the other white space of Unicode.
- Error texts and the messages of diagnostics; errors keep their kind.
- Round trips of constructs that the text parsers read only loosely: signed or hexadecimal numbers, keywords as bare type names, inline fragments without a type condition and string literals equal to a delimiter.
- Selectors of files, services, messages, fields and enums, which are functions of the full names that are modelled.
- The order in which `range` visits a map, except that results are proved not to depend on it.
- The Strava and Spotify corrections; the second can change a tree again when it is applied twice.
- An absolute size bound after minimal operation compaction, which the code does not guarantee.
- Prompt sanitizing and scoring, which are parameters of the packer.
- The loop of `ensureCatalogRefreshObject` along its path is a recursion in `RefreshTree.Bundle`, and finalizing and sorting models are functions.
