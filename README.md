# Athenz: schema serialiser, rule-row delete flow, egress-rule record

This project models three pieces of Athenz in Dafny and proves properties of them.

- **The RDL-to-Java schema serialiser** (`rdl/rdl-gen-athenz-java-model/javaschema.go`). It turns an RDL schema's type and resource definitions into `SchemaBuilder` chain statements such as `    sb.stringType("Name")` followed by `\n            .comment("...")` clauses and a final `;`.
  - The pure switch functions are Dafny functions: the header, version, namespace and comment closures, the type dispatch, `numberValueString` and `javaLiteral`.
  - The generators that build a string `s` in loops are methods with `for` loops: enum, union, struct and resource. Each is proved equal to a specification function.
  - Each statement is also shown to lose nothing. `Calls.Decode` reads a statement back into its head call and clause calls. Per-type readers then recover the definition, with every optional clause present exactly when it should be and in the order the generator writes it.
  - Exceptions are collected from the map in an arbitrary order and sorted. The output is proved to be the same whatever the map's iteration order.
- **The delete-confirmation flow of a microsegmentation rule row** (`ui/src/components/microsegmentation/RuleRow.js`).
  - The component is the class `Microsegmentation.RuleRow`. Its fields are the component state, and its methods are the constructor, `onClickDelete`, `onSubmitDelete`, `onClickDeleteCancel` and the key, click and row selection of `render`.
  - Each method is proved against a transition function on `RowState` values.
  - Lemmas about those functions state what each transition does.
- **The `TransportPolicyEgressRule` record** (`core/msd/src/main/java/com/yahoo/athenz/msd/TransportPolicyEgressRule.java`). It is a class with the four fields, fluent setters, getters and a null-safe `equals`.

Modules:
- `Wrappers` holds `Option`.
- `Text` models Go's `%q` quoting and `%d`/`fmt.Sprint` integer formatting, with their inverses, and splits text into lines.
- `StringOrder` models Go's byte-wise string order and `sort.Strings`.
- `Calls` holds builder calls, their rendering and their decoding.
- `Rdl` is the RDL schema data model.
- `JavaSchema` covers the header and the type constructors.
- `JavaSchemaResource` covers the resource constructor.
- `Microsegmentation` holds the rule-row state and component.
- `Msd` holds the egress rule.

## Model

| member | source | states |
|---|---|---|
| Text.Quote | rdl/rdl-gen-athenz-java-model/javaschema.go:88 | a `%q` string is delimited by double quotes and holds no raw newline, so every clause stays on one line |
| Text.UnquoteQuote | rdl/rdl-gen-athenz-java-model/javaschema.go:88 | quoting loses nothing: unquoting `%q` of a string gives back that string |
| Text.IntToString | rdl/rdl-gen-athenz-java-model/javaschema.go:96 | the decimal text of an integer is non-empty, made of digits and `-`, and has no newline |
| Text.ParseIntToString | rdl/rdl-gen-athenz-java-model/javaschema.go:96-99 | the decimal text of any integer, negative ones included, reads back as that integer |
| Text.LinesOfJoin | rdl/rdl-gen-athenz-java-model/javaschema.go:88-101 | a head followed by newline-prefixed clauses splits back into the head and exactly those clauses |
| StringOrder.BelowTotal | rdl/rdl-gen-athenz-java-model/javaschema.go:268 | any two strings are comparable in Go's string order |
| StringOrder.BelowTransitive | rdl/rdl-gen-athenz-java-model/javaschema.go:268 | Go's string order is transitive |
| StringOrder.BelowAntisymmetric | rdl/rdl-gen-athenz-java-model/javaschema.go:268 | two strings each no greater than the other are equal |
| StringOrder.Insert | rdl/rdl-gen-athenz-java-model/javaschema.go:268 | inserting into a sorted sequence keeps it sorted and adds exactly that element |
| StringOrder.SortStrings | rdl/rdl-gen-athenz-java-model/javaschema.go:268 | `sort.Strings` yields an ascending permutation of its input |
| StringOrder.SortedUnique | rdl/rdl-gen-athenz-java-model/javaschema.go:268 | two ascending permutations of the same strings are equal, so the sorted result does not depend on the input order |
| Calls.ParseCallText | rdl/rdl-gen-athenz-java-model/javaschema.go:88-101 | a rendered call with readable arguments parses back to the same callee and arguments, and occupies one line |
| Calls.ReadArgListText | rdl/rdl-gen-athenz-java-model/javaschema.go:194 | a comma-separated argument list of quoted and verbatim arguments reads back as the same arguments |
| Calls.DecodeRender | rdl/rdl-gen-athenz-java-model/javaschema.go:88-101 | a statement made of a head call, clause lines and a final `;` decodes to the head followed by the clauses' calls in order |
| JavaSchema.SchemaHeaderLines | rdl/rdl-gen-athenz-java-model/javaschema.go:19-29 | the header is the banner comment, then the `package` line only when the package is non-empty, then the `import com.yahoo.rdl.*;` line only when the namespace is not `com.yahoo.rdl` |
| JavaSchema.SchemaVersion | rdl/rdl-gen-athenz-java-model/javaschema.go:30-36 | the version statement is empty exactly when the schema has no version |
| JavaSchema.SchemaVersionRoundTrip | rdl/rdl-gen-athenz-java-model/javaschema.go:30-36 | the version statement reads back as the schema's version, absent when it is absent |
| JavaSchema.TextStatementRoundTrip | rdl/rdl-gen-athenz-java-model/javaschema.go:38-51 | a one-argument `sb.x(%q)` statement reads back as its text |
| JavaSchema.SchemaNamespaceRoundTrip | rdl/rdl-gen-athenz-java-model/javaschema.go:38-44 | the namespace statement is empty exactly when the namespace is empty, and reads back as the namespace |
| JavaSchema.SchemaCommentRoundTrip | rdl/rdl-gen-athenz-java-model/javaschema.go:45-51 | the comment statement is empty exactly when the comment is empty, and reads back as the comment |
| JavaSchema.NumberValueString | rdl/rdl-gen-athenz-java-model/javaschema.go:104-114 | an Int32 or Int64 bound reads back as its value, a Float64 bound is its printed text, and any other variant gives `0` |
| JavaSchema.IntegerBoundsReadable | rdl/rdl-gen-athenz-java-model/javaschema.go:104-109 | integer bounds are always written so that they can be read back |
| JavaSchema.JavaLiteral | rdl/rdl-gen-athenz-java-model/javaschema.go:153-178 | string types and the String, Timestamp, UUID and Symbol base types give a quoted literal that unquotes to the value; number types and the bool, integer and float base types give the value's text; an enum gives `EnumName.value`; an alias, any other base type or variant gives `null` |
| JavaSchema.StringTypeRoundTrip | rdl/rdl-gen-athenz-java-model/javaschema.go:87-102 | the string type statement reads back as the definition, and its `comment`, `pattern`, `minSize` and `maxSize` clauses are each there exactly when the comment or pattern is non-empty or the size is set, in that order |
| JavaSchema.StringTypeClausesPresent | rdl/rdl-gen-athenz-java-model/javaschema.go:89-100 | in any string type statement that reads back, each optional clause is there exactly when the part it stands for is non-empty or set |
| JavaSchema.NumberTypeRoundTrip | rdl/rdl-gen-athenz-java-model/javaschema.go:116-129 | the number type statement reads back as the name, the number type, the comment and bounds agreeing with the definition; the `comment` clause is there exactly when the comment is non-empty, and `min` and `max` exactly when the bound is set, in that order |
| JavaSchema.NumberTypeClausesPresent | rdl/rdl-gen-athenz-java-model/javaschema.go:119-127 | in any number type statement that reads back, the comment clause is there exactly for a non-empty comment and each bound clause exactly for a bound |
| JavaSchema.GenerateEnumTypeConstructor | rdl/rdl-gen-athenz-java-model/javaschema.go:131-140 | the loop builds the enum statement: head, optional comment, one `.element` line per element, `;` |
| JavaSchema.GenerateUnionTypeConstructor | rdl/rdl-gen-athenz-java-model/javaschema.go:142-151 | the loop builds the union statement: head, optional comment, one `.variant` line per variant, `;` |
| JavaSchema.ListStatementRoundTrip | rdl/rdl-gen-athenz-java-model/javaschema.go:131-151 | an enum or union statement reads back as its name, comment and exactly its values in order, with nothing else, and has a `comment` clause exactly when the comment is non-empty |
| JavaSchema.ListCommentPresent | rdl/rdl-gen-athenz-java-model/javaschema.go:133-135 | in any enum or union statement that reads back, the comment clause is there exactly for a non-empty comment |
| JavaSchema.EnumTypeRoundTrip | rdl/rdl-gen-athenz-java-model/javaschema.go:131-140 | the enum statement reads back as the enum's name, comment and symbols in order, with a `comment` clause exactly when the comment is non-empty |
| JavaSchema.UnionTypeRoundTrip | rdl/rdl-gen-athenz-java-model/javaschema.go:142-151 | the union statement reads back as the union's name, comment and variants in order, with a `comment` clause exactly when the comment is non-empty |
| JavaSchema.DefaultArg | rdl/rdl-gen-athenz-java-model/javaschema.go:200-205 | a field default is the literal for the field's type when the registry knows the type, else `null`, and a quoted default quotes the value itself |
| JavaSchema.GenerateFieldLine | rdl/rdl-gen-athenz-java-model/javaschema.go:190-210 | one field's line is the rendered clause the field is classified as |
| JavaSchema.GenerateStructTypeConstructor | rdl/rdl-gen-athenz-java-model/javaschema.go:180-213 | the loop builds the struct statement: head with the supertype only when it is not `Struct`, optional comment, one line per field, `;` |
| JavaSchema.StructTypeRoundTrip | rdl/rdl-gen-athenz-java-model/javaschema.go:180-213 | the struct statement reads back as the name, the supertype, the comment and one field per field. Its head has the supertype as a second literal exactly when it is not `Struct`, and it has a `comment` clause exactly when the comment is non-empty. Each field is `mapField` exactly when it has keys, else `arrayField` exactly when it has items, else `field`. A plain field carries a default exactly when it has one, as the default's Java text |
| JavaSchema.StructClausesPresent | rdl/rdl-gen-athenz-java-model/javaschema.go:181-189 | in any struct statement that reads back, the head has a second literal exactly when the supertype is not `Struct`, and the comment clause is there exactly for a non-empty comment |
| JavaSchema.StringDefaultReadsBack | rdl/rdl-gen-athenz-java-model/javaschema.go:199-206 | the default of a string-typed field reads back as the default value itself |
| JavaSchema.NotYetImplementedShape | rdl/rdl-gen-athenz-java-model/javaschema.go:62-75 | base, map, array and bytes types and unknown variants give a commented NYI line |
| JavaSchema.GeneratedShape | rdl/rdl-gen-athenz-java-model/javaschema.go:64-79 | struct, enum, string, number and union types give an `sb.` builder statement |
| JavaSchema.TypeConstructorShape | rdl/rdl-gen-athenz-java-model/javaschema.go:60-85 | the output is empty exactly for an alias, a comment exactly for the not-yet-implemented variants, and a builder statement exactly for the five generated variants |
| JavaSchema.GenerateTypeConstructor | rdl/rdl-gen-athenz-java-model/javaschema.go:60-85 | the dispatch gives the type's constructor, running the loop-based generators for struct, enum and union |
| JavaSchemaResource.FirstBodyInput | rdl/rdl-gen-athenz-java-model/javaschema.go:218-223 | the first input that is not a path, query or header parameter, and none when there is none |
| JavaSchemaResource.FirstBodyInputAt | rdl/rdl-gen-athenz-java-model/javaschema.go:218-223 | the input found is exactly the earliest body input |
| JavaSchemaResource.RequestTypeName | rdl/rdl-gen-athenz-java-model/javaschema.go:216-224 | the loop that breaks at the first body input gives the resource's type name: for PUT and POST the first body input's type, otherwise or without one the resource's type |
| JavaSchemaResource.GenerateInputLine | rdl/rdl-gen-athenz-java-model/javaschema.go:233-248 | one input's line is the rendered clause the input is classified as, with its default literal or `null` |
| JavaSchemaResource.ReadInputCall | rdl/rdl-gen-athenz-java-model/javaschema.go:232-249 | an input's line reads back with the precedence path, then query, then header, then body, with the query or header name and the default text (`null` without a default or a known type) |
| JavaSchemaResource.AuthValue | rdl/rdl-gen-athenz-java-model/javaschema.go:253-261 | the auth clause is present exactly when the resource has an authorization, and its four, three or two arguments read back as that authorization |
| JavaSchemaResource.AsyncCalls | rdl/rdl-gen-athenz-java-model/javaschema.go:273-277 | `.async()` is written exactly when async is set and true |
| JavaSchemaResource.ExceptionOrder | rdl/rdl-gen-athenz-java-model/javaschema.go:264-268 | the exception names are every key of the map, each once, in strictly ascending order |
| JavaSchemaResource.SortedKeysAreExceptionOrder | rdl/rdl-gen-athenz-java-model/javaschema.go:264-268 | sorting the keys collected in any order gives that same sequence |
| JavaSchemaResource.SortedExceptionNames | rdl/rdl-gen-athenz-java-model/javaschema.go:264-268 | the loop that collects keys in whatever order the map yields them, followed by the sort, gives the ascending key order |
| JavaSchemaResource.ExceptionEntriesOrdered | rdl/rdl-gen-athenz-java-model/javaschema.go:263-272 | the exceptions written are each entry of the map with its own definition, every key exactly once, in ascending order |
| JavaSchemaResource.WriteResourceStart | rdl/rdl-gen-athenz-java-model/javaschema.go:225-231 | the head, then the comment and name clauses each only when non-empty |
| JavaSchemaResource.WriteInputs | rdl/rdl-gen-athenz-java-model/javaschema.go:232-249 | the loop appends one line per input, in order |
| JavaSchemaResource.WriteOutputs | rdl/rdl-gen-athenz-java-model/javaschema.go:250-252 | the loop appends one line per output, in order |
| JavaSchemaResource.WriteAuth | rdl/rdl-gen-athenz-java-model/javaschema.go:253-261 | the auth line is appended only when there is an authorization |
| JavaSchemaResource.WriteExceptions | rdl/rdl-gen-athenz-java-model/javaschema.go:263-272 | the exception lines are appended in ascending name order, each followed by an empty line |
| JavaSchemaResource.WriteResourceEnd | rdl/rdl-gen-athenz-java-model/javaschema.go:262-278 | the expected clause, the sorted exceptions and the optional async clause are appended in that order, before the final `;` |
| JavaSchemaResource.GenerateResourceConstructor | rdl/rdl-gen-athenz-java-model/javaschema.go:215-279 | the generator builds exactly the resource statement that the specification function describes |
| JavaSchemaResource.ResourceRoundTrip | rdl/rdl-gen-athenz-java-model/javaschema.go:215-279 | the resource statement reads back as the request type name, the method and the path. The `comment` and `name` clauses are each there exactly when that text is non-empty. Then each input is read as its classified clause, then the outputs and the optional authorization. Then the expected status, every exception once in ascending name order, and `async` exactly when it is set and true |
| JavaSchemaResource.ResourceClausesPresent | rdl/rdl-gen-athenz-java-model/javaschema.go:226-231 | in any resource statement that reads back, the comment clause and the name clause are each there exactly when that text is non-empty |
| Microsegmentation.PolicyName | ui/src/components/microsegmentation/RuleRow.js:96-97 | the policy name is `acl.`, the service name, `.`, the category, laid out in that order |
| Microsegmentation.RoleName | ui/src/components/microsegmentation/RuleRow.js:107 | the role name is the policy name, `-`, the port |
| Microsegmentation.PolicyNameInjective | ui/src/components/microsegmentation/RuleRow.js:96-97 | within one category, different services name different policies |
| Microsegmentation.RoleNameInjective | ui/src/components/microsegmentation/RuleRow.js:107 | within one policy, different ports name different roles |
| Microsegmentation.Initial | ui/src/components/microsegmentation/RuleRow.js:74-82 | a new row's dialog is closed, its port empty, no error shown, its assertion the rule's index, and its name the destination service for `inbound`, else the source service |
| Microsegmentation.DeleteRequests | ui/src/components/microsegmentation/RuleRow.js:95-111 | a submit sends exactly two requests: delete the held assertion from the policy `acl.<name>.<category>`, and delete the role `<policy>-<port>` with the audit reference `deleted using Athenz UI` |
| Microsegmentation.ClickDeleteRecords | ui/src/components/microsegmentation/RuleRow.js:86-93 | a delete click opens the dialog and records exactly the given name, id and port, changing nothing else |
| Microsegmentation.CancelForgets | ui/src/components/microsegmentation/RuleRow.js:132-138 | cancel closes the dialog, empties the name and clears the error, and keeps the assertion and the port |
| Microsegmentation.SuccessCloses | ui/src/components/microsegmentation/RuleRow.js:112-117 | success closes the dialog and reports success once, and nothing else changes |
| Microsegmentation.NotFoundIsSuccess | ui/src/components/microsegmentation/RuleRow.js:118-123 | a 404 rejection settles exactly as a success does |
| Microsegmentation.OtherErrorShown | ui/src/components/microsegmentation/RuleRow.js:124-128 | any other rejection keeps the dialog as it was, shows the error message and reports nothing |
| Microsegmentation.DeleteAfterCancel | ui/src/components/microsegmentation/RuleRow.js:132-138 | after a cancel, the next delete click carries the emptied name, so a confirmed delete names the policy `acl..<category>` |
| Microsegmentation.FreshRowDeletes | ui/src/components/microsegmentation/RuleRow.js:74-111 | a delete from a fresh row names the policy of the service the row shows, the role of that side's port, and the rule's assertion |
| Microsegmentation.RuleRow.constructor | ui/src/components/microsegmentation/RuleRow.js:69-84 | the row's state is the initial state for its category and rule |
| Microsegmentation.RuleRow.OnClickDelete | ui/src/components/microsegmentation/RuleRow.js:86-93 | the new state is the delete-click transition of the old one |
| Microsegmentation.RuleRow.OnSubmitDelete | ui/src/components/microsegmentation/RuleRow.js:95-130 | the requests sent are those of the state before the submit, and the new state is how that state settles for the outcome |
| Microsegmentation.RuleRow.OnClickDeleteCancel | ui/src/components/microsegmentation/RuleRow.js:132-138 | the new state is the cancel transition of the old one |
| Microsegmentation.RuleRow.Key | ui/src/components/microsegmentation/RuleRow.js:151-168 | the row key starts with the category, then holds the service the row offers to delete and the very port its delete icon passes, and ends with the row index in decimal |
| Microsegmentation.RuleRow.KeyIndexInjective | ui/src/components/microsegmentation/RuleRow.js:151-168 | two rows showing the same rule in the same category get the same key only when their indexes are equal |
| Microsegmentation.RuleRow.ClickDeleteIcon | ui/src/components/microsegmentation/RuleRow.js:157-174 | the delete icon passes the held name and assertion with the destination port for `inbound`, else the source port |
| Microsegmentation.RuleRow.Render | ui/src/components/microsegmentation/RuleRow.js:140-293 | the rule's line is always rendered, and the delete dialog is rendered after it exactly while the dialog is open, with the source service's name, key, message and current error |
| Msd.NullSafeEqualIsEquality | core/msd/src/main/java/com/yahoo/athenz/msd/TransportPolicyEgressRule.java:58-66 | the null-safe comparison of a reference field holds exactly when both are null or both are set and equal |
| Msd.SameFieldsIsEquality | core/msd/src/main/java/com/yahoo/athenz/msd/TransportPolicyEgressRule.java:55-66 | the field-by-field comparison holds exactly when all four fields are equal |
| Msd.SameFieldsSymmetric | core/msd/src/main/java/com/yahoo/athenz/msd/TransportPolicyEgressRule.java:55-66 | the comparison is symmetric |
| Msd.SameFieldsTransitive | core/msd/src/main/java/com/yahoo/athenz/msd/TransportPolicyEgressRule.java:55-66 | the comparison is transitive |
| Msd.TransportPolicyEgressRule.constructor | core/msd/src/main/java/com/yahoo/athenz/msd/TransportPolicyEgressRule.java:13-17 | a new rule has id 0 and every reference field null |
| Msd.TransportPolicyEgressRule.SetId | core/msd/src/main/java/com/yahoo/athenz/msd/TransportPolicyEgressRule.java:19-25 | the setter returns the same object, the getter then returns the new id, and no other field changes |
| Msd.TransportPolicyEgressRule.SetLastModified | core/msd/src/main/java/com/yahoo/athenz/msd/TransportPolicyEgressRule.java:26-32 | the setter returns the same object, the getter then returns the new value, and no other field changes |
| Msd.TransportPolicyEgressRule.SetEntitySelector | core/msd/src/main/java/com/yahoo/athenz/msd/TransportPolicyEgressRule.java:33-39 | the setter returns the same object, the getter then returns the new value, and no other field changes |
| Msd.TransportPolicyEgressRule.SetTo | core/msd/src/main/java/com/yahoo/athenz/msd/TransportPolicyEgressRule.java:40-46 | the setter returns the same object, the getter then returns the new value, and no other field changes |
| Msd.TransportPolicyEgressRule.Equals | core/msd/src/main/java/com/yahoo/athenz/msd/TransportPolicyEgressRule.java:48-69 | null and objects of another class are unequal; the same object is equal; another rule is equal exactly when all four fields are equal, so a differing id makes it unequal |

## Left out

- Template execution: `text/template` parsing, the template text and the `io.Writer` output of `GenerateSchema` are library code and I/O. Only the closures the template calls are modelled.
- `GenerationPackage` is defined in a file that is not part of this model. Its result is a parameter of the header.
- `%q` escaping: only `"`, `\`, newline, carriage return and tab are escaped. Go's escaping of other control and non-printable characters is not modelled.
- Printed values: `fmt.Sprint`/`%v` of a field or input default, which is an untyped interface value, is given as its printed text. Float64 values are given as their printed text too, because floating-point formatting is not modelled.
- Number variants: the Int8, Int16 and Float32 variants of a number bound fall to `"0"`, as in the source.
- `rdl.TypeRegistry.FindType` is a map lookup that returns `None` for an unknown name.
- `JavaSchema.NumberTypeRoundTrip`: requires that each bound's text can be read back as one bare argument: non-empty, no leading `"`, no `,` and no newline. A Float64 bound's printed text is given, not derived, so it qualifies only when it has that form. `JavaSchema.IntegerBoundsReadable` shows that integer bounds always qualify.
- `JavaSchema.StructTypeRoundTrip`: requires that the default of each plain field (no keys, no items) can be read back as one argument, in the same sense. A verbatim or enum default whose printed text is empty, starts with `"`, or contains `,` or a newline cannot be. Map and array fields write no default and are not constrained.
- `JavaSchemaResource.ResourceRoundTrip`: requires that each query or header parameter's default can be read back as an argument, for the same reason. Path parameters and the body input write no default and are not constrained.
- Map order: Go's randomised map iteration order is modelled by choosing keys with `:|`. The sort then makes the output independent of that choice.
- Rendering: the React rendering, styling and menus of the rule row are left out. `render` is modelled only by which rows it produces, with the key, the click arguments and the dialog's props.
- Backend calls: the `deleteAssertion` and `deleteRole` network calls and their `Promise.all` join are modelled as an `Outcome` input, `Ok` or `Err(statusCode)`.
- The message `RequestUtils.xhrErrorCheckHelper` makes of a failure is a parameter.
- The `_csrf` token and `DateUtils` are left out.
- `onUpdateSuccess` is modelled by counting its calls in `successReports`.
- `Microsegmentation.RuleRow.OnSubmitDelete`: the request and its settlement are one atomic step. Other events interleaving while the requests are in flight are not modelled.
- Row state: an unset and a null `errorMessage` are both `None`. The row index `idx` is an integer, and its text is its decimal form.
- The Jackson annotation on the record is left out.
- `Timestamp`, `TransportPolicyEntitySelector` and `TransportPolicyPeer` are abstract types. Their `equals` is taken to be an equivalence, and is modelled as Dafny equality.
- Java `long` is the 64-bit `Rdl.int64`.
- In `equals`, an object of a subclass counts as another class, as `getClass()` makes it.
