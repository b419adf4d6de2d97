# tsoa controller generator, modelled in Dafny

This project models tsoa's `ControllerGenerator`
(`packages/cli/src/metadataGeneration/controllerGenerator.ts`). The
generator takes one TypeScript class declaration of a web controller. It
reads the class-level decorators (`Route`, `Tags`, `Security`, `NoSecurity`,
`Hidden`, `Response`, `NewInstancePerRequest`, `NoNewInstancePerRequest`)
and checks them in a fixed order, throwing at the first violation. It then
decides whether the class is "controller-like", meaning that its class chain
declares `getHeaders`, `getStatus` and `setStatus`. `Generate` produces the
controller record: location, name, path, methods, `newInstancePerRequest`
and `extendsController`.

Layout:

- `syntax.dfy`: the parts of a class declaration the generator looks at. These are its name, its source file, its decorators, its members and the class it extends. Decorator arguments and method declarations also carry an identity for their syntax node. Two arguments with the same text stay distinct, and so do an overload signature and its implementation.
- `tsoa.dfy`: decorator argument values with JavaScript truthiness, the response and controller records, and the error kind.
- `collaborators.dfy`: the code the generator calls but that is not modelled. This is the decorator-value evaluator, the security reader, the type resolver, the header-type helper and the method generator. They are arbitrary total functions bundled in an `Env` value.
- `decorator_query.dfy`: selecting the decorators of a given name, in order.
- `pipelines.dfy`: `filter`, and a `map` whose callback may throw.
- `class_decorators.dfy`: `getPath`, `getTags`, `getSecurity`, `getIsHidden`, `getCommonResponses` and `getNewInstancePerRequest`. Each is a function returning a `Result`, and the exact error messages are built from the class name.
- `controller_protocol.dfy`: `exhibitsControllerProtocol`. It is written as methods with loops: the member loop that accumulates names and recurses into the parent, then the early-return check of the required names. Both are proved against recursive specification functions.
- `method_building.dfy`: `buildMethods` as the source chains it (filter, construct, filter, generate). It succeeds exactly when a one-pass reference reading does, and then yields the same records; the errors of the two readings can differ.
- `controller_generation.dfy`:
  - the constructor as the function `Construct`, which applies the checks in source order;
  - the class `ControllerGenerator`, with its fields, `New` (the fallible constructor), `IsValid` and `Generate`;
  - both halves of the finding below.

`ControllerGenerator.New` allocates the object with its field initialisers, so `isControllerLike` is `false`. It then runs the checks, with the instance-per-request check reading the `isControllerLike` field as it stands. If a check throws, `New` returns that error. Otherwise it assigns the checked values and, last, the protocol check's result. This follows the source order, finding included. `ConstructCorrected` is the intended behaviour, and the properties proved about it are stated separately.

## Model

| member | source | states |
|---|---|---|
| DecoratorQuery.GetDecorators | packages/cli/src/metadataGeneration/controllerGenerator.ts:62 | the selection is never longer than the decorator list, and it is empty exactly when no decorator has the name |
| DecoratorQuery.GetDecoratorsMembers | packages/cli/src/metadataGeneration/controllerGenerator.ts:62 | the selection holds exactly the decorators with that name: each selected one comes from the list and has the name, and each one with the name is selected |
| DecoratorQuery.GetDecoratorsConcat | packages/cli/src/metadataGeneration/controllerGenerator.ts:62 | selecting distributes over concatenation, so the declaration order is kept |
| DecoratorQuery.GetDecoratorsIgnoresOthers | packages/cli/src/metadataGeneration/controllerGenerator.ts:62 | appending a decorator with another name leaves the selection unchanged |
| Pipelines.Filter | packages/cli/src/metadataGeneration/controllerGenerator.ts:55 | the result keeps exactly the elements satisfying the predicate, and is empty when none does |
| Pipelines.FilterConcat | packages/cli/src/metadataGeneration/controllerGenerator.ts:55 | filtering distributes over concatenation, so the order is kept |
| Pipelines.MapResult | packages/cli/src/metadataGeneration/controllerGenerator.ts:82-97 | a successful throwing map has one value per input |
| Pipelines.MapResultOk | packages/cli/src/metadataGeneration/controllerGenerator.ts:82-97 | a throwing map succeeds iff every call succeeds, and its i-th value is the i-th call's value |
| Pipelines.MapResultFirstError | packages/cli/src/metadataGeneration/controllerGenerator.ts:82-97 | a failing map reports the error of a call all of whose predecessors succeeded, i.e. the first failing call |
| Collaborators.NewMethodGenerator | packages/cli/src/metadataGeneration/controllerGenerator.ts:56 | construction succeeds iff the constructor throws nothing, and then the generator holds the member and the controller-level values it was given; a failure carries the constructor's own error |
| ClassDecorators.GetPath | packages/cli/src/metadataGeneration/controllerGenerator.ts:61-74 | path is undefined iff there is no `Route`; a path is set iff there is exactly one; more than one throws "Only one Route decorator allowed in '<class>' class." |
| ClassDecorators.PathOfSingleRoute | packages/cli/src/metadataGeneration/controllerGenerator.ts:70-73 | with one `Route`, the path is that decorator's argument text; it is `''` iff the argument is missing or is the empty literal |
| ClassDecorators.ArgumentTexts | packages/cli/src/metadataGeneration/controllerGenerator.ts:112 | one text per argument, each argument's `.text`, in order |
| ClassDecorators.GetTags | packages/cli/src/metadataGeneration/controllerGenerator.ts:100-113 | tags are undefined iff there is no `Tags`; set iff there is exactly one; more than one throws "Only one Tags decorator allowed" |
| ClassDecorators.TagsOfSingleTags | packages/cli/src/metadataGeneration/controllerGenerator.ts:109-112 | with one `Tags`, the tags are that decorator's argument texts in order |
| ClassDecorators.GetSecurity | packages/cli/src/metadataGeneration/controllerGenerator.ts:115-128 | any `NoSecurity` throws "NoSecurity decorator is unnecessary"; otherwise one entry per `Security` decorator, in order, and `[]` when there is none |
| ClassDecorators.GetIsHidden | packages/cli/src/metadataGeneration/controllerGenerator.ts:130-140 | succeeds iff there is at most one `Hidden`, and is then true iff `Hidden` is present; more than one throws "Only one Hidden decorator allowed" |
| ClassDecorators.ResponseSchema | packages/cli/src/metadataGeneration/controllerGenerator.ts:94 | no type argument gives no schema; otherwise the resolved first type argument, or exactly the error the resolver throws |
| ClassDecorators.BuildResponse | packages/cli/src/metadataGeneration/controllerGenerator.ts:82-96 | a falsy name throws "Controller's responses should have an explicit name."; success iff the name is truthy and schema and headers resolve; description defaults to `''`; examples are undefined iff the example is undefined, otherwise `[example]`; with a truthy name, a resolver error is thrown first, then a header-type error |
| ClassDecorators.GetCommonResponses | packages/cli/src/metadataGeneration/controllerGenerator.ts:76-98 | a successful result has one response per `Response` decorator, and no `Response` decorator gives `[]` |
| ClassDecorators.CommonResponsesSpec | packages/cli/src/metadataGeneration/controllerGenerator.ts:76-97 | one response per `Response` decorator at its position; success iff each builds; a failure carries the first failing decorator's error; no decorator gives `[]` |
| ClassDecorators.UnnamedResponseFails | packages/cli/src/metadataGeneration/controllerGenerator.ts:85-88 | an unnamed response makes the list fail, with the explicit-name error when no earlier response failed |
| ClassDecorators.GetNewInstancePerRequest | packages/cli/src/metadataGeneration/controllerGenerator.ts:142-169 | succeeds iff neither decorator repeats, they do not occur together, and `NoNewInstancePerRequest` does not meet a controller-like class; the value is true iff `NoNewInstancePerRequest` is absent; two or more `NewInstancePerRequest` throw "Only one NewInstancePerRequest decorator allowed"; otherwise two or more `NoNewInstancePerRequest` throw "Only one NoNewInstancePerRequest decorator allowed"; one of each throws "… are mutually exclusive …" |
| ClassDecorators.ShouldNotExtendControllerIff | packages/cli/src/metadataGeneration/controllerGenerator.ts:164-166 | for a named class, "should not extend Controller" is thrown iff there is one `NoNewInstancePerRequest`, no `NewInstancePerRequest`, and the class is seen as controller-like |
| ControllerProtocol.MethodNamesRecursivelyFrom | packages/cli/src/metadataGeneration/controllerGenerator.ts:172-187 | the accumulating member loop followed by the parent recursion yields the chain's identifier-named methods, own members first |
| ControllerProtocol.ExhibitsControllerProtocol | packages/cli/src/metadataGeneration/controllerGenerator.ts:171-197 | the early-return loop answers true iff all of getHeaders, getStatus and setStatus are among the collected names |
| ControllerProtocol.Ancestors | packages/cli/src/metadataGeneration/controllerGenerator.ts:181-183 | the chain walked starts at the class itself |
| ControllerProtocol.OwnMethodNamesConcat | packages/cli/src/metadataGeneration/controllerGenerator.ts:173-179 | collecting names from a concatenation of member lists concatenates the names |
| ControllerProtocol.OwnMethodNamesIff | packages/cli/src/metadataGeneration/controllerGenerator.ts:173-179 | a name is collected iff some member is a method declaration with that identifier name |
| ControllerProtocol.ChainMethodNamesIff | packages/cli/src/metadataGeneration/controllerGenerator.ts:172-187 | a name is collected iff the class or one of its class ancestors declares a method of that name |
| ControllerProtocol.AddMemberKeepsNames | packages/cli/src/metadataGeneration/controllerGenerator.ts:173-179 | inserting a member anywhere removes no collected name |
| ControllerProtocol.AddMemberKeepsControllerLike | packages/cli/src/metadataGeneration/controllerGenerator.ts:191-196 | adding a member never makes a controller-like class stop being one |
| ControllerProtocol.AddParentKeepsControllerLike | packages/cli/src/metadataGeneration/controllerGenerator.ts:181-186 | giving a class a class parent never makes it stop being controller-like |
| ControllerProtocol.DeclaringProtocolSuffices | packages/cli/src/metadataGeneration/controllerGenerator.ts:191-196 | a class that itself declares the three methods is controller-like, whatever it extends |
| MethodBuilding.BuildMethods | packages/cli/src/metadataGeneration/controllerGenerator.ts:53-59 | a successful build yields at most one record per method declaration |
| MethodBuilding.MethodGeneratorsCons | packages/cli/src/metadataGeneration/controllerGenerator.ts:54-56 | the generators of a member list: the first member's generator, when it is a method declaration, ahead of the rest's; the first constructor error wins |
| MethodBuilding.GenerateValidCons | packages/cli/src/metadataGeneration/controllerGenerator.ts:57-58 | the records of a generator list: the first generator's record, when it is valid, ahead of the rest's; the first `Generate` error wins |
| MethodBuilding.BuildMethodsInOnePass | packages/cli/src/metadataGeneration/controllerGenerator.ts:53-59 | the staged filter/construct/filter/generate chain succeeds iff the one-pass reading does, and then yields its records: the valid method declarations in declaration order |
| MethodBuilding.OverloadSignatureSkipped | packages/cli/src/metadataGeneration/controllerGenerator.ts:53-59 | an overload signature and its implementation are two members with the same name: a signature the method generator reports invalid is dropped, and only the implementation yields a record |
| MethodBuilding.ConstructorErrorsComeFirst | packages/cli/src/metadataGeneration/controllerGenerator.ts:53-59 | every generator is constructed before any `Generate`: a later constructor error wins over an earlier `Generate` error |
| ControllerGeneration.Construct | packages/cli/src/metadataGeneration/controllerGenerator.ts:17-27 | the constructor as written: a successful construction has `isControllerLike` equal to the protocol check and a new instance per request iff there is no `NoNewInstancePerRequest` |
| ControllerGeneration.ConstructWith | packages/cli/src/metadataGeneration/controllerGenerator.ts:20-26 | the checks in constructor order, given the value the instance-per-request check reads; on success, `isControllerLike` is the protocol check, a new instance per request iff there is no `NoNewInstancePerRequest`, and always one when the check read `true` |
| ControllerGeneration.ConstructSucceedsIff | packages/cli/src/metadataGeneration/controllerGenerator.ts:19-27 | construction succeeds iff every decorator count is acceptable and every common response builds; controller-likeness plays no part |
| ControllerGeneration.ConstructedFields | packages/cli/src/metadataGeneration/controllerGenerator.ts:20-26 | after construction: path set iff `Route`; tags undefined iff no `Tags`; one security entry per `Security`; hidden iff `Hidden`; one response per `Response`; new instance per request iff no `NoNewInstancePerRequest`; `isControllerLike` is the protocol check; path, tags, security, hidden flag and responses are exactly the values of the corresponding checks |
| ControllerGeneration.FirstFailingCheckWins | packages/cli/src/metadataGeneration/controllerGenerator.ts:20-25 | the first failing check among the six decorator checks, in constructor order, determines the thrown error; the messages of the `Route`, `Tags`, `NoSecurity` and `Hidden` checks are given |
| ControllerGeneration.ControllerLikeSharedInstanceAccepted | packages/cli/src/metadataGeneration/controllerGenerator.ts:17 | as written: a controller-like class with `NoNewInstancePerRequest` is constructed with a shared instance (see Findings) |
| ControllerGeneration.ExampleIsControllerLike | packages/cli/src/metadataGeneration/controllerGenerator.ts:191-196 | the finding's example class declares the protocol methods and so is controller-like |
| ControllerGeneration.ConstructCorrected | packages/cli/src/metadataGeneration/controllerGenerator.ts:25-26 | the corrected constructor, with the protocol check before the instance-per-request check: a controller-like class it accepts always gets a new instance per request |
| ControllerGeneration.CorrectedSharesExactlyNonControllerLike | packages/cli/src/metadataGeneration/controllerGenerator.ts:164-166 | corrected: the corrected constructor grants a shared instance exactly when the as-written one does and the class is not controller-like |
| ControllerGeneration.CorrectedRejectsSharedControllerLike | packages/cli/src/metadataGeneration/controllerGenerator.ts:164-166 | corrected: where the as-written constructor accepts a controller-like class with a shared instance, the corrected one throws "should not extend Controller" |
| ControllerGeneration.CorrectedAgreesOtherwise | packages/cli/src/metadataGeneration/controllerGenerator.ts:25-26 | for classes that are not controller-like, the corrected and as-written constructors agree |
| ControllerGeneration.ControllerGenerator.New | packages/cli/src/metadataGeneration/controllerGenerator.ts:16-27 | the object starts from the initialisers; a throwing check ends construction with `Construct`'s error; otherwise the new object's fields are `Construct`'s values |
| ControllerGeneration.ControllerGenerator.IsValid | packages/cli/src/metadataGeneration/controllerGenerator.ts:29-31 | `!!path \|\| path === ''` holds iff a path was set |
| ControllerGeneration.ControllerGenerator.Generate | packages/cli/src/metadataGeneration/controllerGenerator.ts:33-51 | no parent source file throws first, then no name; otherwise the result fails iff `buildMethods` does; the record holds the file name, class name, built methods, the path or `''`, and the two flags |
| ControllerGeneration.ValidIffRoute | packages/cli/src/metadataGeneration/controllerGenerator.ts:29-31 | a generator whose fields are those the constructor computes from its own node and environment is valid iff the class has a `Route` decorator |
| ControllerGeneration.GeneratedMethods | packages/cli/src/metadataGeneration/controllerGenerator.ts:53-59 | the generated methods are the one-pass reading seeded with the controller's responses, path, tags, security and hidden flag |

## Left out

- The TypeScript compiler API is replaced by the datatypes in `syntax.dfy`. Whether `ts.isClassDeclaration` accepts the first `extends` type (lines 181-182) is a question about the compiler library. The model lets a parent be a class declaration (`ExtendsClass`) or anything else (`ExtendsOther`, which ends the walk).
- The helpers `getDecoratorValues`, `getSecurites`, `TypeResolver.resolve`, `getHeaderType` and `MethodGenerator` are not part of this model. They are arbitrary total functions in `Env`. Schemas, security entries and method records are uninterpreted values.
- `getDecorators` from `decoratorUtils` is not part of this model. It is modelled as selecting the decorators whose identifier has the given name, in declaration order. A missing result (`!decorators`) therefore never occurs.
- Floating-point decorator values are not modelled. Numbers are integers, so `NaN` and `-0` truthiness is not captured. `null` is a value of its own: it is falsy and differs from `undefined`.
- Method names are the identifier's escaped text, taken as given. Names that are not plain identifiers contribute nothing, as at line 176.
- A `Tags` argument whose `.text` is undefined is kept as `None` in the tags list. A `Route` argument with an undefined `.text` becomes the string `"undefined"`, as the template literal at line 73 produces.
- The TypeError that `this.node.name!.text` raises for an unnamed class is modelled as the error `NameTextTypeError`, not with its exact text.
- `getSecurity` throws on any `NoSecurity` decorator, whether or not a `Security` decorator is present. The model follows this code, not the wider reading that it only fails when both are present.
- The fields `path`, `tags`, `security`, `isHidden` and `commonResponses` have no initialiser in the source. Before construction they are undefined. The model starts them at neutral values, which are always overwritten before `New` returns an object.
- `ControllerGenerator.New`: the checks are computed by the pure function `ConstructWith` before the fields are assigned in one call, rather than by interleaving each check with its field assignment. No caller can observe the difference, because a throwing check discards the partly built object.
- `tests/unit/templating/routeGenerator.spec.ts` tests only the route generator, whose source is not part of this model.
- `packages/runtime/src/decorators/instancePerRequest.ts` holds two decorator factories with no logic.
- The metadata orchestrator, file I/O and the reference-type registry are not part of this model.

## Findings

| source | as written | input that shows it | evidently intended | confidence | as-written member | corrected member |
|---|---|---|---|---|---|---|
| packages/cli/src/metadataGeneration/controllerGenerator.ts:17 | `getNewInstancePerRequest` (line 25) reads `this.isControllerLike` at line 164, but that field is only assigned at line 26. It still holds its initialiser `false`, so the "should not extend Controller" error can never be thrown. | `@Route() @NoNewInstancePerRequest() class C { getHeaders() {} getStatus() {} setStatus() {} }` is accepted with `newInstancePerRequest = false` | compute controller-likeness before the instance-per-request check, so that such a class is rejected | high, not executed | ControllerGeneration.ControllerLikeSharedInstanceAccepted | ControllerGeneration.CorrectedRejectsSharedControllerLike |
