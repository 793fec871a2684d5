# Promo-code restriction engine, in Dafny

This project models the core of a promo-code service and proves properties of the model. A promo code
has a name, an advantage (a discount percentage) and a list of restrictions. A restriction is a tree
node: an age rule, a date window, a weather rule, and lists of sub-nodes combined with `and` or `or`.
The service has two entry points:

- **Creating a promo code.** A flat command becomes a list of single-field restriction nodes. The
  nodes are built recursively, the name must be unused, and the new code is appended to an
  in-memory store.
- **Checking a promo code.** The handler looks the name up and builds a payload from three sources:
  today's date, the user's age, and the weather in the user's town. It then compiles the code's
  restrictions to a JSON Schema, validates the payload against that schema with Ajv, and answers
  `Accepted` (with the advantage) or `Denied` (with the reasons).

The model has one module per source file:

- **Domain objects.** `Rules`, `DateRules`, `WeatherRules`, `Restrictions`, `Advantages` and
  `PromoCodes`. Each object either comes out of its constructor exactly as given, or the constructor
  fails with a `DomainValidationError` that carries the field messages. Constructors are modelled as
  functions returning a `Result`.
- **The store.** `FakeDb` is a class with a `seq` field and the seeded `happy10` code.
- **Creation.** `CreatePromoCode` holds the handler as a class. Its methods push nodes step by step,
  and each method is proved equal to a functional specification of the tree it builds.
- **Compilation and validation.**
  - `AjvRestrictions` is the compiler. Its constructor is a loop over the restrictions.
  - `JsonSchemas` is the draft-07 subset the compiler emits. It comes with a reference evaluator and
    an error reporter.
  - `ValidatorService` turns the evaluator's errors into the reason string.
- **Checking.** `CheckPromoCode` assembles the payload and decides the verdict.
- **What the trees mean.** `RestrictionSemantics` says directly when a restriction tree holds for a
  payload. It proves the compiler correct for the trees it renders faithfully (`CompileCorrect`), and
  proves the quirks of the other trees as lemmas.
- **Scenarios.** `CreatedCodes` shows that what the create handler builds satisfies the compiler's
  top-level hypothesis. `Happy10Scenario` and `CompilerScenario` work through the seeded code and the
  compiler's integration scenario end to end.
- **Support.** `JsValues` models JavaScript values, truthiness, template interpolation and
  `Array.prototype.toString`. `IsoDates` models `YYYY-MM-DD` dates (RFC 3339 section 5.6, day limits
  from section 5.7). `Wrappers` holds `Option` and `Result`.

Value conventions:

- A field value is `Undefined`, `Num(int)` or `Str(string)`.
- JavaScript truthiness is kept wherever the code tests it: `eq` in the rule's exclusivity check,
  `temp.eq` in the compiler, `query.age` and `query.town` in the check.
- Template literals render a missing value as `undefined`, as the code does.

## Model

| member | source | states |
|---|---|---|
| Rules.NewRule | src/promo-codes/domain/entities/rules/rule.ts:17-66 | A rule is built exactly from its inputs, or rejected. It is accepted iff its decorator checks pass and it does not have a truthy `eq` beside a truthy bound. 'Gt must be a valid number' is raised iff `eq` is undefined and `gt` is not a number; the `lt` message likewise. 'Eq must be a valid number' is raised iff both bounds are undefined and `eq` is not a number. A truthy `eq` with a truthy bound fails with exactly the conflict message, whatever the field types. |
| Rules.SingleFieldsAccepted | src/promo-codes/domain/entities/rules/rule.ts:17-53 | Each of these constructs to exactly its input: `eq` alone, `gt` alone, `lt` alone, and `gt` with `lt`. |
| Rules.ZeroEscapesExclusivity | src/promo-codes/domain/entities/rules/rule.ts:61 | The exclusivity test uses truthiness, so a zero `eq`, or a zero bound, lets `eq` and a bound coexist. |
| Rules.StringEqWithBoundConflicts | src/promo-codes/domain/entities/rules/rule.ts:17-66 | A non-empty string `eq` beside a nonzero bound switches every decorator check off, so the constructor throws exactly the conflict message. |
| Rules.ConstructedPassesNested | src/promo-codes/domain/entities/rules/rule.ts:17-53 | An accepted rule passes the decorator checks again when it is validated as a nested field. |
| DateRules.NewDateRule | src/promo-codes/domain/entities/rules/date-rule.ts:12-46 | A date rule is built exactly from its inputs iff each bound is missing or a date, and `before` is not strictly earlier than `after`. Each bound's message is raised iff that bound is present but not a date. An inverted window fails with exactly 'Before date cannot be later than After date'. |
| DateRules.SameDayAccepted | src/promo-codes/domain/entities/rules/date-rule.ts:41 | A window whose two ends are the same day is accepted, because the comparison is strict. |
| DateRules.SingleBoundAccepted | src/promo-codes/domain/entities/rules/date-rule.ts:41 | With a single bound, the ordering check never fires. |
| DateRules.ConstructedPassesNested | src/promo-codes/domain/entities/rules/date-rule.ts:12-33 | An accepted date rule passes the decorator checks again when it is nested. |
| IsoDates.ParseFormat | src/promo-codes/domain/entities/rules/date-rule.ts:12-20 | Every valid calendar date has a writing that reads back to that same date. |
| IsoDates.FormatParse | src/promo-codes/domain/entities/rules/date-rule.ts:25-33 | Every string accepted as a date is exactly the canonical writing of the date it denotes. |
| IsoDates.PrecedesTotal | src/promo-codes/domain/entities/rules/date-rule.ts:41 | The chronological order behind `new Date(before) < new Date(after)` is a strict total order. |
| WeatherRules.ParseName | src/promo-codes/domain/entities/rules/weather-rule.ts:5-21 | Each of the fifteen enum members is found again from its string value, so the strings are distinct. |
| WeatherRules.NewWeatherRule | src/promo-codes/domain/entities/rules/weather-rule.ts:33-50 | A weather rule is built exactly from its inputs iff `temp` is a rule passing its own decorator checks and `is` is an enum value. 'Temp is required' is raised iff `temp` is missing. 'Temp must be a valid rule' is raised iff `temp` is not an object. 'Is is required' is raised iff `is` is missing. 'Is must be a valid enum' is raised iff `is` is present but not an enum value. |
| WeatherRules.AcceptsEnumWithRule | src/promo-codes/domain/entities/rules/weather-rule.ts:33-50 | An accepted temperature rule together with any enum member makes an accepted weather rule. |
| Restrictions.NewRestriction | src/promo-codes/domain/entities/restriction.ts:65-79 | A node is built exactly from its inputs. It is accepted iff its nested fields pass validation and at least one of the five fields is defined. A node with all five fields undefined fails with exactly 'A restriction must have at least one rule'. That message is raised iff all five fields are undefined. |
| Restrictions.NestedMessagesAreDecorators | src/promo-codes/domain/entities/restriction.ts:25-60 | Nested validation of a subtree raises decorator messages only, never a message from a `validate()`. |
| Restrictions.ItemsErrorsEmpty | src/promo-codes/domain/entities/restriction.ts:44-60 | An `and`/`or` list passes nested validation iff every node in it does. |
| Restrictions.NestedFailureRejectsParent | src/promo-codes/domain/entities/restriction.ts:44-60 | A child with a failing decorator check, in either list, makes its parent's construction fail. |
| Restrictions.CombinatorAccepted | src/promo-codes/domain/entities/restriction.ts:44-79 | An `and` node or an `or` node over valid children is accepted, exactly as given, whatever the number of children. |
| Restrictions.EmptyListsAreRules | src/promo-codes/domain/entities/restriction.ts:68-73 | An empty `and` or `or` list is enough to pass the at-least-one-rule check, because that check compares with `undefined` only. |
| Restrictions.SingleRuleAccepted | src/promo-codes/domain/entities/restriction.ts:68-74 | A node holding only an age rule, only a date rule or only a weather rule that passes its own checks is accepted as given. |
| Restrictions.SeveralSimpleRulesAccepted | src/promo-codes/domain/entities/restriction.ts:65-79 | A node may carry age, date and weather rules at once. |
| Advantages.NewAdvantage | src/promo-codes/domain/entities/advantage.ts:13-15 | An advantage is built, keeping its percent exactly, iff the percent is a number; there is no range check. A missing percent fails with the required message. A string percent fails with 'Percent must be a valid number'. |
| PromoCodes.NewPromoCode | src/promo-codes/domain/entities/promo-code.entity.ts:13-34 | A promo code is built exactly from its inputs iff three things hold: its restrictions pass nested validation, its name is a string, and its advantage is present with a numeric percent. 'Name is required' is raised iff the name is missing. 'Name must be a valid string' is raised iff the name is a number. 'Advantage is required' is raised iff the advantage is missing. |
| FakeDb.FindFirst | src/promo-codes/infrastructure/fake-db/fake-db.service.ts:56-58 | The result is nothing iff no stored code has the name. Otherwise it is a stored code with that name, and no earlier code has it. |
| FakeDb.FindFirstAppend | src/promo-codes/infrastructure/fake-db/fake-db.service.ts:56-62 | Appending a code never hides an earlier match, and the new code is found when nothing earlier matches. |
| FakeDb.SeedRulesValid | src/promo-codes/infrastructure/fake-db/fake-db.service.ts:19-49 | Each rule constructor the seed calls accepts its input: the three age rules, the date window, the ash weather rule, and the 10 percent advantage. |
| FakeDb.SeedTreeValid | src/promo-codes/infrastructure/fake-db/fake-db.service.ts:19-49 | Nested validation of the whole seeded tree raises no message. |
| FakeDb.Happy10Constructs | src/promo-codes/infrastructure/fake-db/fake-db.service.ts:15-51 | The promo-code constructor accepts the seeded tree, so the seeded value is exactly `Happy10()`. |
| FakeDb.FakeDBService.constructor | src/promo-codes/infrastructure/fake-db/fake-db.service.ts:15-51 | The store starts with the single `happy10` code. |
| FakeDb.FakeDBService.FindPromoCode | src/promo-codes/infrastructure/fake-db/fake-db.service.ts:56-58 | The linear scan returns the first stored code with the name, as `FindFirst`. |
| FakeDb.FakeDBService.AddPromoCode | src/promo-codes/infrastructure/fake-db/fake-db.service.ts:60-62 | The code is appended at the end. Earlier entries and their order are unchanged, and duplicates are not rejected. |
| CreatePromoCode.BuiltNodesPass | src/promo-codes/commands/create-promo-code/create-promo-code.command.ts:56-131 | Every top-level node the handler builds passes nested validation, so `new PromoCode` never rejects the tree it is given. |
| CreatePromoCode.CreateOutcome | src/promo-codes/commands/create-promo-code/create-promo-code.command.ts:43-151 | A taken name yields exactly 'This promocode name already exist'. On a free name, a failed build returns its error unchanged, and so does a failing advantage. Otherwise the result is what `new PromoCode` returns for the built tree. A free name with a buildable tree, a string name and a numeric percent is created, as exactly the code holding that tree, name and advantage. Any success had a free string name and a numeric percent. |
| CreatePromoCode.CreatePromoCodeHandler.constructor | src/promo-codes/commands/create-promo-code/create-promo-code.command.ts:41 | The handler keeps the store it is given. |
| CreatePromoCode.CreatePromoCodeHandler.Execute | src/promo-codes/commands/create-promo-code/create-promo-code.command.ts:43-151 | The result is `CreateOutcome` against the store as it was. The store gains exactly the returned code on success and is unchanged on any error. |
| CreatePromoCode.CreatePromoCodeHandler.PushRestrictions | src/promo-codes/commands/create-promo-code/create-promo-code.command.ts:56-131 | The successive pushes yield exactly `BuildRestrictions`, including the first error thrown. |
| CreatePromoCode.CreatePromoCodeHandler.SetRecursiveOperators | src/promo-codes/commands/create-promo-code/create-promo-code.command.ts:158-210 | The `reduce` over a list yields exactly `BuildEntries`. |
| CreatePromoCode.CreatePromoCodeHandler.PushOperator | src/promo-codes/commands/create-promo-code/create-promo-code.command.ts:163-208 | The callback appends the entry's nodes to the accumulator, or fails with the entry's first error. |
| CreatePromoCode.CreatePromoCodeHandler.PushRuleNodes | src/promo-codes/commands/create-promo-code/create-promo-code.command.ts:179-207 | The age, date and weather pushes append one node per present rule, in that order, or fail with the first constructor error. |
| CreatePromoCode.BuildEntriesAppend | src/promo-codes/commands/create-promo-code/create-promo-code.command.ts:163-209 | Building a concatenation of lists builds the two halves in turn, and the first failure wins. |
| CreatePromoCode.PrefixFailure | src/promo-codes/commands/create-promo-code/create-promo-code.command.ts:132-142 | Once a prefix of a list fails, the whole list fails with the same error, so no partial tree escapes. |
| CreatePromoCode.NullEntryFails | src/promo-codes/commands/create-promo-code/create-promo-code.command.ts:163-164 | A `null` anywhere in an `and`/`or` list fails the whole build. |
| CreatePromoCode.EntryShape | src/promo-codes/commands/create-promo-code/create-promo-code.command.ts:163-209 | An entry becomes one single-field sibling per populated key, in the order and, or, age, date, weather. |
| CreatePromoCode.CommandShape | src/promo-codes/commands/create-promo-code/create-promo-code.command.ts:59-120 | Top-level nodes are single-field and come in the order age, date, weather, and, or. A missing rule, or a missing or empty list, yields no node. |
| CreatePromoCode.EntryCanonical | src/promo-codes/commands/create-promo-code/create-promo-code.command.ts:163-209 | Every node of the tree built from an entry, at every depth, carries exactly one field. |
| CreatePromoCode.CommandCanonical | src/promo-codes/commands/create-promo-code/create-promo-code.command.ts:59-120 | Every node of every tree a command builds carries exactly one field. |
| CreatePromoCode.CreateKeepsNamesUnique | src/promo-codes/commands/create-promo-code/create-promo-code.command.ts:48-150 | Start from a store with unique names. A successful creation keeps the names unique, and the new code is then found by its name. |
| CreatePromoCode.AgeAndWeatherSplit | src/promo-codes/commands/create-promo-code/create-promo-code.command.ts:179-207 | An entry holding both `age` and `weather` becomes two sibling nodes, age first, each built from its own input. |
| CreatedCodes.CommandKindsDistinct | src/promo-codes/commands/create-promo-code/create-promo-code.command.ts:59-120 | A command yields each kind of top-level node at most once. |
| CreatedCodes.CreatedRestrictionsDisjoint | src/promo-codes/commands/create-promo-code/create-promo-code.command.ts:59-120 | Two facts hold for every tree the handler builds. No two top-level nodes write the same key of the compiler's accumulator. Each node carries at most one rule. |
| CreatedCodes.CreatedCodeDisjoint | src/promo-codes/commands/create-promo-code/create-promo-code.command.ts:43-151 | The code a successful create returns has disjoint top-level nodes of at most one rule each. |
| JsValues.JoinComma | src/promo-codes/infrastructure/ajv/validator.service.ts:55-67 | An empty list joins to the empty string, and a single element to itself. Otherwise the joined string starts with the first element and ends with the last. |
| JsValues.JoinCommaContains | src/promo-codes/infrastructure/ajv/validator.service.ts:55-67 | Every joined reason appears verbatim in the joined message. |
| JsonSchemas.RequiredErrors | src/promo-codes/infrastructure/ajv/validator.service.ts:47-48 | `required` reports no error iff every listed key is present in the payload, and at most one error per listed key. |
| JsonSchemas.NumberErrorsEmpty | src/promo-codes/infrastructure/ajv/validator.service.ts:47-48 | A number schema reports no error iff its `const`, `maximum` and `minimum` all hold (inclusive). |
| JsonSchemas.PropertiesErrorsEmpty | src/promo-codes/infrastructure/ajv/validator.service.ts:47-48 | `properties` reports no error iff every sub-schema holds for the keys the payload has. |
| JsonSchemas.ErrorsEmptyIff | src/promo-codes/infrastructure/ajv/validator.service.ts:47-48 | For every schema, the error list is empty iff the payload satisfies the schema under draft-07. |
| AjvRestrictions.SubSchemaList | src/promo-codes/infrastructure/ajv/ajv-restriction.ts:136-179 | A list yields an `allOf`/`anyOf` iff it is present and non-empty. |
| AjvRestrictions.SubSchemas | src/promo-codes/infrastructure/ajv/ajv-restriction.ts:140-178 | A list of n nodes yields n sub-schemas, the i-th compiled from the i-th node. |
| AjvRestrictions.Fold | src/promo-codes/infrastructure/ajv/ajv-restriction.ts:10-45 | A property key, an `allOf`, an `anyOf` or a required key is present only if some node put it there. Each node pushes at most one required key. |
| AjvRestrictions.AjvRestriction.constructor | src/promo-codes/infrastructure/ajv/ajv-restriction.ts:9-53 | The loop over the restrictions produces exactly `Compile(restrictions)`. |
| AjvRestrictions.AjvRestriction.ReduceRestriction | src/promo-codes/infrastructure/ajv/ajv-restriction.ts:11-40 | One reduce callback: merge the converted properties, spread `and`/`or` over the accumulator, and push the first present key of age, date, weather onto `required`. The result is exactly `Step`. |
| AjvRestrictions.AjvRestriction.ConvertCombinator | src/promo-codes/infrastructure/ajv/ajv-restriction.ts:136-179 | A missing or empty list yields no key. Otherwise the reduce over the list yields exactly `SubSchemaList`, one sub-schema per item and in order. |
| AjvRestrictions.AjvRestriction.PushSubSchema | src/promo-codes/infrastructure/ajv/ajv-restriction.ts:141-174 | Pushing a node's sub-schema and then setting `required` at its index appends exactly `SubSchema` of that node. |
| RestrictionSemantics.AgeSchemaMeaning | src/promo-codes/infrastructure/ajv/ajv-restriction.ts:58-75 | For a numeric rule, the age schema holds iff the rule holds: `const` for `eq`, `maximum` for `lt`, `minimum` for `gt`. |
| RestrictionSemantics.TempSchemaMeaning | src/promo-codes/infrastructure/ajv/ajv-restriction.ts:98-131 | The weather schema holds iff the weather rule holds. This needs an exclusive numeric temperature rule whose `eq` is not zero. |
| RestrictionSemantics.NodePropertiesMeaning | src/promo-codes/infrastructure/ajv/ajv-restriction.ts:148-161 | A node's properties hold iff each of its rules holds, for the keys the payload has. |
| RestrictionSemantics.NoSimpleNoConstraint | src/promo-codes/infrastructure/ajv/ajv-restriction.ts:148-161 | A node without a rule contributes no property and no required key. |
| RestrictionSemantics.FirstFieldMeaning | src/promo-codes/infrastructure/ajv/ajv-restriction.ts:165-171 | For a node with at most one rule, the required key demands exactly the payload key of that rule. |
| RestrictionSemantics.RulesMeaning | src/promo-codes/infrastructure/ajv/ajv-restriction.ts:148-171 | A node's properties and required key hold together iff all its rules hold. |
| RestrictionSemantics.SubSchemaMeaning | src/promo-codes/infrastructure/ajv/ajv-restriction.ts:140-178 | The sub-schema of a compilable node holds iff the node holds. |
| RestrictionSemantics.AndMeaning | src/promo-codes/infrastructure/ajv/ajv-restriction.ts:136-179 | The `allOf` of an `and` list holds iff every node of the list holds. |
| RestrictionSemantics.OrMeaning | src/promo-codes/infrastructure/ajv/ajv-restriction.ts:184-226 | The `anyOf` of a non-empty `or` list holds iff some node of the list holds. |
| RestrictionSemantics.MergeMeaning | src/promo-codes/infrastructure/ajv/ajv-restriction.ts:18-23 | Merging properties with disjoint keys conjoins them. |
| RestrictionSemantics.StepMeaning | src/promo-codes/infrastructure/ajv/ajv-restriction.ts:11-40 | A reduce step that writes only free keys adds the node's meaning to the accumulator's meaning. |
| RestrictionSemantics.NodeParts | src/promo-codes/infrastructure/ajv/ajv-restriction.ts:148-179 | A compilable node holds iff its properties hold, its first present key is present, all of its `and` list holds, and some item of its `or` list holds. |
| RestrictionSemantics.FoldMeaning | src/promo-codes/infrastructure/ajv/ajv-restriction.ts:10-45 | For compilable, disjoint nodes, the accumulator holds iff every node holds. |
| RestrictionSemantics.CompileCorrect | src/promo-codes/infrastructure/ajv/ajv-restriction.ts:9-53 | For compilable, disjoint top-level nodes, the compiled schema accepts a payload iff every restriction holds for it. |
| RestrictionSemantics.ZeroTempIgnored | src/promo-codes/infrastructure/ajv/ajv-restriction.ts:117-126 | `temp: {eq: 0}` is a valid rule, but it puts no bound on the temperature: every temperature passes the schema, and only 0 satisfies the rule. |
| RestrictionSemantics.OnlyFirstRuleRequired | src/promo-codes/infrastructure/ajv/ajv-restriction.ts:31-37 | A node with both age and date rules requires only `age`. A payload without a date passes, though the date rule cannot hold for it. |
| RestrictionSemantics.EmptyOrAcceptsAll | src/promo-codes/infrastructure/ajv/ajv-restriction.ts:184-187 | An empty `or` list compiles to no `anyOf`. Every payload passes, though no alternative can hold. |
| RestrictionSemantics.FoldAppend | src/promo-codes/infrastructure/ajv/ajv-restriction.ts:10-45 | Compiling one more node is one more reduce step. |
| RestrictionSemantics.LaterNodeReplaces | src/promo-codes/infrastructure/ajv/ajv-restriction.ts:18-29 | A later node's `and`/`or` replaces the earlier `allOf`/`anyOf`, and a later node's rule replaces the earlier property of the same key. |
| ValidatorService.Reasons | src/promo-codes/infrastructure/ajv/validator.service.ts:55-66 | There is one reason per error, in order. An `anyOf` error becomes 'One of the conditions is not fulfilled', an `allOf` error becomes 'All the conditions must be fulfilled', and any other error keeps its message. |
| ValidatorService.Execute | src/promo-codes/infrastructure/ajv/validator.service.ts:31-77 | The verdict is `ValidationVerdict`: it throws on missing restrictions or a schema Ajv cannot compile, meaning a bound of the wrong type or a `required` list that repeats a key. Otherwise it is valid, or invalid with the joined reasons. |
| ValidatorService.MapReasons | src/promo-codes/infrastructure/ajv/validator.service.ts:55-66 | The loop over the errors yields exactly `Reasons`. |
| ValidatorService.ValidIffSatisfies | src/promo-codes/infrastructure/ajv/validator.service.ts:39-76 | The verdict is valid iff the restrictions are present, the schema compiles (bounds of the right type, no repeated `required` key), and the payload satisfies it. |
| ValidatorService.InvalidListsReasons | src/promo-codes/infrastructure/ajv/validator.service.ts:53-69 | A rejection's message contains the reason of every reported error. |
| ValidatorService.OnlyRestrictionsMatter | src/promo-codes/infrastructure/ajv/validator.service.ts:32 | Two codes with the same restrictions get the same verdict, whatever their names and advantages. |
| ValidatorService.SubSchemaWellFormed | src/promo-codes/infrastructure/ajv/validator.service.ts:39 | A compilable node's sub-schema is one Ajv compiles. |
| ValidatorService.FoldWellFormed | src/promo-codes/infrastructure/ajv/validator.service.ts:39 | Compilable nodes yield properties and combinators Ajv compiles. |
| ValidatorService.FoldRequiredNoRepeats | src/promo-codes/infrastructure/ajv/ajv-restriction.ts:31-37 | When no two top-level nodes write the same key, the compiled `required` list names each key at most once, so Ajv accepts it. |
| ValidatorService.RepeatedKeyThrows | src/promo-codes/infrastructure/ajv/validator.service.ts:39 | Two `{age: {eq: 40}}` top-level nodes compile to `required: ['age', 'age']`, and the verdict is a throw, whatever the payload. |
| ValidatorService.ValidIffRestrictionsHold | src/promo-codes/infrastructure/ajv/validator.service.ts:31-77 | For compilable, disjoint restrictions, the verdict is valid iff every restriction holds for the payload. |
| CheckPromoCode.TodayOfTimestamp | src/promo-codes/queries/check-promo-code/check-promo-code.query.ts:74 | For a timestamp shaped as `toISOString` writes it (a calendar date, `T`, a time), the payload's date is exactly that calendar date, and it parses back to the same day. |
| CheckPromoCode.CheckPromoCodeHandler.constructor | src/promo-codes/queries/check-promo-code/check-promo-code.query.ts:44-48 | The handler keeps the store it is given. |
| CheckPromoCode.CheckPromoCodeHandler.Execute | src/promo-codes/queries/check-promo-code/check-promo-code.query.ts:50-111 | The answer is `CheckOutcome` for the stored codes, the clock and the weather service. |
| CheckPromoCode.UnknownNameDenied | src/promo-codes/queries/check-promo-code/check-promo-code.query.ts:54-62 | An unknown name is denied with 'No promoCode with this name was found', whatever the clock and the weather. |
| CheckPromoCode.AcceptedIffValid | src/promo-codes/queries/check-promo-code/check-promo-code.query.ts:91-110 | The answer is Accepted iff three things hold: a code of that name exists, the payload could be built, and the validator finds it valid for the first such code. The advantage returned is that code's. |
| CheckPromoCode.FailureOutcomes | src/promo-codes/queries/check-promo-code/check-promo-code.query.ts:81-98 | For a known name, a failed weather lookup or a schema Ajv cannot compile (a bound of the wrong type, or a top-level `required` that repeats a key) rejects the promise, and these are the only ways it is rejected. An invalid payload is denied, with the validator's message as reasons and the query's name. |
| CheckPromoCode.PayloadContents | src/promo-codes/queries/check-promo-code/check-promo-code.query.ts:69-84 | The payload always has today's date. It has the age iff the age is truthy, and the weather iff the town is truthy, each exactly as given or looked up. The payload fails only when the lookup fails. |
| CheckPromoCode.NoTownNoWeather | src/promo-codes/queries/check-promo-code/check-promo-code.query.ts:81-84 | Without a truthy town, the weather service plays no part in the answer. |
| CheckPromoCode.AcceptedIffRestrictionsHold | src/promo-codes/queries/check-promo-code/check-promo-code.query.ts:50-111 | For a code with compilable, disjoint restrictions, the answer is Accepted with its advantage iff every restriction holds for the payload. |
| Happy10Scenario.Age40Rendered | src/promo-codes/infrastructure/ajv/ajv-restriction.ts:62-74 | The age messages interpolate the raw values, so absent bounds appear as 'undefined'. |
| Happy10Scenario.Aged40Compiles | src/promo-codes/infrastructure/ajv/validator.service.spec.ts:81-94 | The seed's `age: {eq: 40}` alternative compiles to the expected sub-schema. |
| Happy10Scenario.YoungOnAshCompiles | src/promo-codes/infrastructure/ajv/validator.service.spec.ts:95-138 | The seed's `and` alternative compiles to the expected `allOf`. |
| Happy10Scenario.Happy10Compiles | src/promo-codes/infrastructure/ajv/validator.service.spec.ts:65-140 | The seeded restrictions compile to exactly the expected schema. |
| Happy10Scenario.Happy10Faithful | src/promo-codes/infrastructure/fake-db/fake-db.service.ts:19-49 | The seed meets the hypotheses of the compiler's correctness theorem. |
| Happy10Scenario.YoungOnAshMeaning | src/promo-codes/infrastructure/fake-db/fake-db.service.ts:32-45 | The `and` alternative holds iff the age is between 15 and 30 and the weather is ash at 15 degrees or more. |
| Happy10Scenario.EitherMeaning | src/promo-codes/infrastructure/fake-db/fake-db.service.ts:26-48 | The seed's `or` holds iff the user is 40, or is 15 to 30 with ash weather at 15 degrees or more. |
| Happy10Scenario.Happy10Meaning | src/promo-codes/infrastructure/fake-db/fake-db.service.ts:19-49 | The seed holds iff the date is inside the window, and the user is either aged 40 or eligible for the `and` alternative. |
| Happy10Scenario.Happy10Check | src/promo-codes/queries/check-promo-code/check-promo-code.query.ts:50-111 | Checking `happy10` against the seeded store is Accepted with 10 percent iff the payload is eligible. |
| CompilerScenario.ScenarioFaithful | src/promo-codes/infrastructure/ajv/ajv-restriction.int.spec.ts:14-54 | The integration scenario's restrictions meet the hypotheses of the compiler's correctness theorem. |
| CompilerScenario.YoungOnClearMeaning | src/promo-codes/infrastructure/ajv/ajv-restriction.int.spec.ts:28-42 | On a clear day at 20 degrees, the `and` holds iff the user is 15 to 30. |
| CompilerScenario.EitherMeaning | src/promo-codes/infrastructure/ajv/ajv-restriction.int.spec.ts:21-45 | On a clear day at 20 degrees, the `or` holds iff the user is 40, or 15 to 30. |
| CompilerScenario.ScenarioMeaning | src/promo-codes/infrastructure/ajv/ajv-restriction.int.spec.ts:47-53 | On 2022-10-10, on a clear day at 20 degrees, the scenario holds iff the user is 40, or aged 15 to 30. |
| CompilerScenario.ScenarioVerdicts | src/promo-codes/infrastructure/ajv/ajv-restriction.int.spec.ts:54-82 | The compiled schema accepts the 15-year-old without any error and rejects the 50-year-old with at least one. |

## Left out

- Not modelled, and why:
  - **I/O and plumbing.** The NestJS wiring, the controller, the modules, the CQRS buses, the Swagger
    types, the logger and `async`/`await` are plumbing. The flows are modelled as sequential code.
  - **The weather API service.** It makes HTTP calls and reads an API key. It is the parameter
    `weatherOf`, and `None` stands for a failed lookup.
  - **The clock.** `new Date().toISOString()` is the parameter `now`.
  - **Numbers.** Ages, temperatures and percents are integers, so floating point, `NaN` and `null`
    numbers are not modelled. `if (query.age)` therefore drops only 0.
- The `validator.ts` base class and the error classes are not part of this model. Their behaviour is
  an assumption of the model:
  - Missing fields skip the type checks; `@IsDefined` still runs.
  - Nested validation runs the nested object's decorators, not its `validate()`.
  - A failure carries one message per failing constraint. Two decorators of the same kind on one
    field (`@IsNumber` twice on `gt`, `@IsDefined` twice on `is`) share a constraint name, so only the
    custom message is kept.
  - The object's own `validate()` check runs only when no field message was raised.
- **Dates.** Strings are read only in the date-only form `YYYY-MM-DD`. Timestamps and other ISO 8601
  forms are not accepted.
- **Ajv, ajv-errors and ajv-formats** are replaced by a reference evaluator for the draft-07 keywords
  the compiler emits.
  - `formatMaximum`/`formatMinimum` are calendar order.
  - Ajv's compile-time errors are reduced to two rules: a bound of the wrong type throws, and so
    does a `required` list that repeats a key (draft-07 gives `required` `uniqueItems`).
  - Property key order, object identity and `Object.freeze` are not modelled.
- JsonSchemas.Errors: the error list is this model's own convention, not Ajv's exact list.
  - A failing `anyOf` or `allOf` gives one error under its own keyword, without the errors of its
    members.
  - The `anyOf`, `allOf`, `required` and `properties` errors come in that order.
  - Only the keyword and the message of each error are kept.
- CheckPromoCode.UnknownNameDenied: the converse is not proved. The converse would say that a denial
  with the not-found message means the name is unknown. A validator reason could in principle have
  the same text.
- RestrictionSemantics.CompileCorrect: stated only for compilable, disjoint trees. Outside them the
  schema and the restrictions disagree, and the lemmas `ZeroTempIgnored`, `OnlyFirstRuleRequired`,
  `EmptyOrAcceptsAll` and `LaterNodeReplaces` show where.
- **A weather rule without `temp`.** The compiler would throw on it, but the model reads it as a
  rule with no field. No constructor accepts such a rule, so stored codes never hold one.
- **Errors the create handler catches.** A thrown `DomainValidationError` is returned as it is.
  Reading a key of a `null` list entry is the only other error the model raises, and it becomes
  `UnknownError`. A `null` command is not modelled.
- **Reason de-duplication.** Reasons are not de-duplicated: validator.service.ts:55-67 joins them as
  they come, repeats included, and so does the model.
