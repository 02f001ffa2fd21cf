# Verification of the tempest-fastapi-sdk correction scripts, SQL console, admin sessions and mypy plugin

The repository ships two *overlays* that correct a provider's OpenAPI document before client
code is generated from it, a mypy plugin for models that store enum values, a SQL console
behind a policy, the one-time use of TOTP codes and the list of admin sessions that were logged
out, and the scripts that keep a package's `__all__` in order. This project models each of them
and proves what they are for. `dafny verify dfyconfig.toml` checks everything.

| file | what it models |
|---|---|
| `Json`, `JsonTrees`, `Text` | documents as values, documents as mutable trees (`copy.deepcopy`, `node[key] = text`), Python string operations |
| `Reachability`, `ReferencePlaces` | the `$ref` worklists, against the least closed set of names; what a reference is, place by place |
| `PathTemplates` | path normal form and placeholders |
| `OverlayEnums` | moving an inline enum to a component |
| `MercadoPagoOverlay` | `apply` as functions of the document and as methods that patch a copy in place |
| `AddedOperations` | rendering an operation the document omits |
| `MercadoPagoProperties`, `MercadoPagoItems` | conservation, exact notes and report, idempotence; the other keys of a path |
| `MercadoPagoResult` | the document `apply` returns, told from the one it is given: its other keys, each operation, each schema, what was pruned |
| `MercadoPagoPruning`, `MercadoPagoDangling` | what pruning keeps, and when a pruned schema is still reached, told from the run and from the document given |
| `OpenPixWalk`, `OpenPixNumericWalk` | the numeric walk as a map over the document, and the recursion that changes a tree in place |
| `JsonPointers` | RFC 6901 escaping, resolving and patching |
| `OpenPixOverlay`, `OpenPixProperties`, `OpenPixIdempotence`, `OpenPixResult`, `OpenPixGoals` | the OpenPix `apply`; no step makes what the walk would claim; idempotence; what every place of the result holds; every correction in place, what a named schema keeps, and the exceptions |
| `ShippedTables`, `ShippedAdditions`, `ShippedPruning` | the shipped correction tables, observed schemas and added operations satisfy what the theorems ask of tables |
| `EnumValues` | the type rewriting of the mypy plugin, with a meaning for types |
| `SqlShell` | classification, policy, audited execution |
| `TotpClaim`, `SessionRevocations` | the two protocols, as runs of interleaved steps |
| `ExportOrder`, `ExportSplice` | the natural sort key and the `__all__` splice |

Results where the code does less than its documentation says, each with the exact condition:

- A JSON pointer is resolved after all its leading slashes are stripped, so it is read back for
  exactly the lists of keys that begin with a non-empty key, or hold one key only
  (`JsonPointers.ResolveIsExact`).
- The lifetime of a revocation mark is documented as "at least" the session lifetime. It has to
  exceed it: with equal lifetimes a copied cookie is accepted for up to a second after the mark
  is gone (`SessionRevocations.LogoutHoldsExactlyWhenMarkOutlivesCookie`). That covers every
  revocation, and the cookies the console signs, each before its session is revoked.
- Lifting an enum is documented as an opening. It narrows a property that declares no `type` and
  documents values that are not text, and one that relies on `nullable` for a documented null,
  unless a component already stored accepts them
  (`OverlayEnums.LiftWidensExactlyWhenEachValueIsTaken`, `OverlayEnums.LiftWidensExactlyWhenValuesFit`).
- The export list does not depend on set iteration order exactly when no two names share a sort
  key; a leading zero is enough to share one (`ExportOrder.OrderIsUniqueExactlyWhenKeysDiffer`,
  `ExportOrder.LeadingZeroTies`).
- Pruning is documented as removing what only deprecated operations reach. The operations added
  afterwards can reach it: the finished document refers to a removed schema exactly when the same
  run without pruning reaches one (`MercadoPagoPruning.DanglesExactlyWhenUnprunedReaches`). Told
  from the document given, that is when the operations that survive and those that are added lead
  to a schema that is pruned and not written anew, through stored schemas, the components their
  enums are lifted into and the observed schemas
  (`MercadoPagoDangling.DanglesExactlyWhenLostNameIsInUse`). The shipped tables do so on a document
  that stores an unused `AuthenticatedUser` (`ShippedPruning.StoredNewNameCanDangle`).
- A statement is classified by the most privileged family it contains, documented as making a
  policy grant all that the statement does. A policy is a set of families, and that is true of
  exactly the policies closed downwards: one that grants only `DELETE` accepts a `DELETE` that
  also inserts (`SqlShell.GrantsAllExactlyWhenDownwardClosed`, `SqlShell.DeleteThatInsertsIsAccepted`).
  Those policies are told apart by trees of any shape. Where what is nested is part of a query, and
  nothing is nested in a `DROP`, the exact condition asks only for the families of a query that rank
  below one granted, and nothing of `DROP` (`SqlShell.NestsAreGrantedExactlyWhenContained`).
- The rule that refuses an `UPDATE` or `DELETE` without a `WHERE` looks at one node of a statement.
  Over trees of any shape, it holds of every such node exactly under the policies that grant nothing
  above `INSERT` (`SqlShell.WritesAreGuardedExactlyWhenNoneIsGranted`); where only queries are
  nested, a policy may also grant `DROP` (`SqlShell.NestedWritesAreGuardedExactlyWhenNoneIsHeld`). It misses an `UPDATE`
  of a whole table inside a `DELETE` with a `WHERE` (`SqlShell.DeleteThatUpdatesIsAccepted`), and
  holds of the only write of a statement classified by it (`SqlShell.OnlyWriteHasWhere`).

`{:induction false}` switches Dafny's automatic induction off: such a lemma is proved by what its
body says, or from the definitions alone when the body is empty.

## Model

| member | source | states |
|---|---|---|
| `PathTemplates.NormaliseIsIdempotent` | scripts/mercadopago_overlay.py:1160-1172 | for every string, the normal form of a normal form is itself |
| `PathTemplates.KeysAreEqualExactly` | scripts/mercadopago_overlay.py:1160-1172 | two spellings have one key if and only if their verbs differ in case only and their templates in placeholder names and trailing slashes only |
| `PathTemplates.KeyOfTemplate` | scripts/mercadopago_overlay.py:1160-1172 | the key of a template: the verb in capitals, and the text without names and trailing slashes, never empty |
| `PathTemplates.PathParameters` | scripts/mercadopago_overlay.py:1367-1381 | the loop returns the non-empty placeholder of each chunk, in template order |
| `PathTemplates.TemplateParts` | scripts/mercadopago_overlay.py:1367-1381 | of a template written out from its pieces, the parameters are its names in order, and filling them into the collapsed path rebuilds it |
| `PathTemplates.NormaliseLosesOnlyNames` | scripts/mercadopago_overlay.py:1160-1172 | for a well-formed template without a trailing slash, refilling the normal form with what `_path_parameters` reads gives the template back |
| `Reachability.SchemaRefs` | scripts/mercadopago_overlay.py:1248-1269 | the stack terminates and collects exactly the names some `$ref` at any depth refers to |
| `ReferencePlaces.RefsArePlaces` | scripts/mercadopago_overlay.py:1248-1269 | a name is referred to if and only if some mapping, at any depth, holds a `$ref` that is its path under the component schemas |
| `Reachability.ReachIsLeastClosed` | scripts/mercadopago_overlay.py:1220-1245 | the reachable names contain the references of the paths, are closed under those of each stored schema, and are within every set that is |
| `Reachability.ReachableSchemas` | scripts/mercadopago_overlay.py:1220-1245 | the worklist terminates on every document, cyclic or dangling, and returns exactly the least closed set |
| `Reachability.ReachIsMonotone` | scripts/mercadopago_overlay.py:1438-1449 | operations with fewer references reach no more schemas |
| `Reachability.PruningKeepsReach` | scripts/mercadopago_overlay.py:1438-1454 | dropping unreached names changes neither the reachable set nor any schema in it |
| `OverlayEnums.Components.LiftEnums` | scripts/overlay_enums.py:40-71 | the loop leaves the schemas, and reports the lifts, that the table says |
| `OverlayEnums.LiftIsLocal` | scripts/overlay_enums.py:46-70 | a lift changes one property and adds at most one component; every other schema, key and entry of `properties` is what it was |
| `OverlayEnums.LiftKeepsWords` | scripts/overlay_enums.py:49-69 | the values and the type are in the component that is made, and the description stays with the property, which keeps no other key |
| `OverlayEnums.LiftIsIdempotent` | scripts/overlay_enums.py:26-29 | lifting a table again changes nothing and reports nothing |
| `OverlayEnums.OpenPropertyMeaning` | scripts/overlay_enums.py:63-69 | the opened property accepts exactly what its component accepts, through a reference that resolves, and everything of the bare type |
| `OverlayEnums.LiftWidensExactlyWhenEachValueIsTaken` | scripts/overlay_enums.py:31-36 | everything the closed property accepted is still accepted if and only if each documented value it accepted is of the bare type or taken by the component, new or already stored |
| `OverlayEnums.LiftWidensExactlyWhenValuesFit` | scripts/overlay_enums.py:49-69 | with a new component, for a property of no more than `type` and `enum`, if and only if its documented values fit the type it is given |
| `OverlayEnums.LiftWidensTyped` | scripts/overlay_enums.py:31-36 | a typed, not nullable property accepts afterwards all it did and every value of its type, whatever the component already said |
| `OverlayEnums.ComponentHoldsTheValues` | scripts/overlay_enums.py:49-62 | a new component accepts exactly the documented values of its type |
| `OverlayEnums.LiftKeepsSchema` | scripts/overlay_enums.py:37-71 | a table of lifts leaves every schema it does not name |
| `OverlayEnums.LiftsAreExact` | scripts/overlay_enums.py:40-71 | what the loop leaves under every name, told at once: a stored schema with each enum opened by the first entry that names its property, or the component of the first entry that finds an enum for it |
| `OverlayEnums.LiftedAreExact` | scripts/overlay_enums.py:40-71 | an entry is reported if and only if the table's first for its property and the given schemas declare an enum there |
| `MercadoPagoOverlay.Patch.MoveOperations` | scripts/mercadopago_overlay.py:1410-1427 | one verb at a time: the new path block, the moves made and the collisions |
| `MercadoPagoOverlay.Patch.RemoveOperations` | scripts/mercadopago_overlay.py:1429-1447 | listed operations are gone, with a path that declares no other verb, and only those found are reported |
| `MercadoPagoOverlay.Patch.AddOperations` | scripts/mercadopago_overlay.py:1463-1470 | an operation is added where its verb is not declared, and reported |
| `MercadoPagoOverlay.Patch.MarkAllUnverified` | scripts/mercadopago_overlay.py:1175-1217 | walking paths and verbs in any order marks exactly the operations nothing vouches for |
| `MercadoPagoOverlay.Patch.MarkAllUnrouted` | scripts/mercadopago_overlay.py:1272-1298 | each listed operation that is declared and not marked gets its note |
| `MercadoPagoOverlay.Patch.DeclareObserved` | scripts/mercadopago_overlay.py:1458-1461 | the observed schemas fill what is missing and overwrite nothing |
| `MercadoPagoOverlay.Patch.Run` | scripts/mercadopago_overlay.py:1410-1481 | all the steps on the copy, in order, leave the specified blocks and report |
| `MercadoPagoOverlay.ApplyOverlay` | scripts/mercadopago_overlay.py:1384-1481 | the whole run refines the specification, early return and exceptions included, and its result keeps every key of the document but `paths`, and every key of the components but `schemas`, and adds no other |
| `MercadoPagoResult.OutcomeIsExact` | scripts/mercadopago_overlay.py:1405-1454 | a document without paths comes back as it is; one whose components or schemas are no mapping raises; any other is patched |
| `MercadoPagoResult.RestOfResult` | scripts/mercadopago_overlay.py:1405-1472 | of the returned document, only the paths and the component schemas are written |
| `MercadoPagoResult.OperationsOfResult` | scripts/mercadopago_overlay.py:1410-1480 | for each verb of each path of the returned document: nothing where the operation is retired or moved away, the one moved there, the one that was there, or the addition the path can take, with the note that is due appended to its description and no other key changed |
| `MercadoPagoResult.SchemasOfResult` | scripts/mercadopago_overlay.py:1449-1461 | for each name of the returned schemas: the document's schema with its enums opened unless it is reported pruned, else the component a lift makes, else the observed schema, else nothing |
| `MercadoPagoResult.PrunedOfResult` | scripts/mercadopago_overlay.py:1438-1454 | a name is reported pruned if and only if it was reached before the deprecated operations were taken away and is not afterwards |
| `MercadoPagoResult.MovesOfResult` | scripts/mercadopago_overlay.py:1410-1427 | a correction is reported as moved, or as a collision, if and only if the given document has its operation and the destination is free, or taken |
| `MercadoPagoResult.RemovalsOfResult` | scripts/mercadopago_overlay.py:1429-1447 | an operation is reported as removed, or as deprecated, if and only if its table names it and the given document declares it |
| `MercadoPagoResult.AdditionsOfResult` | scripts/mercadopago_overlay.py:1463-1470 | an addition is reported if and only if neither the given document nor a move puts an operation there and the path can take one |
| `MercadoPagoResult.MarksOfResult` | scripts/mercadopago_overlay.py:1175-1298 | each of the two marks is reported if and only if the operation wanted there is due it and lacks it |
| `MercadoPagoProperties.MoveView` | scripts/mercadopago_overlay.py:1410-1427 | what is declared at any route after the moves is read off the document they started from |
| `MercadoPagoProperties.CollisionsKeepBoth` | scripts/mercadopago_overlay.py:1420-1423 | a verb already at a destination is never overwritten: the collision is reported and both operations stay |
| `MercadoPagoProperties.OperationsAreConserved` | scripts/mercadopago_overlay.py:1410-1470 | route by route, the result has the originals with each correction that did not collide moved, minus the retired ones, plus the missing additions, each object kept up to text appended to its description |
| `MercadoPagoProperties.OperationsAreExact` | scripts/mercadopago_overlay.py:1175-1298 | each operation of the result is the expected one with its description replaced by the text and the note, and exactly as it was when no note is due |
| `Json.DescriptionOfText` | scripts/mercadopago_overlay.py:1212 | a description that is text is that text, and one that is absent or false is empty |
| `MercadoPagoProperties.NotesAreExact` | scripts/mercadopago_overlay.py:1175-1217 | to the letter, what is appended to the description of every operation of the result |
| `MercadoPagoProperties.ReportNamesTheChanges` | scripts/mercadopago_overlay.py:1408-1481 | a move, collision, removal, deprecation, addition, unverified mark or unrouted mark is in the report if and only if the original document calls for it |
| `MercadoPagoProperties.UnnamedPathsAreKept` | scripts/mercadopago_overlay.py:1410-1470 | a path no table names keeps its keys, and its value under each key that is not a verb |
| `MercadoPagoItems.OtherKeysStayWithTheirPath` | scripts/mercadopago_overlay.py:1424-1447 | on any path, named or not, keys that are not verbs are kept; a path goes, with them, exactly when it had operations and none is left, and no move takes them along |
| `MercadoPagoProperties.SchemasAreConserved` | scripts/mercadopago_overlay.py:1449-1461 | every name of the finished schemas, lifted or not: the provider's schema with its enums opened unless it was orphaned, else the component a lift makes, else the observed schema, else nothing |
| `MercadoPagoProperties.UnliftedSchemasAreKept` | scripts/mercadopago_overlay.py:1449-1461 | a schema no lift names is the provider's, unchanged, unless it was orphaned, and otherwise the observed one |
| `MercadoPagoProperties.PropertiesAreConserved` | scripts/mercadopago_overlay.py:1456-1461 | a property of a schema that stays is declared as before, or opened by the first entry that names it |
| `MercadoPagoProperties.PathsSettle` | scripts/mercadopago_overlay.py:1399-1403 | every step finds nothing to do in the path block of the result; only the collisions repeat |
| `MercadoPagoProperties.ApplyIsIdempotent` | scripts/mercadopago_overlay.py:1384-1481 | applying the overlay to its own output returns the same document and a report empty but for the collisions |
| `MercadoPagoPruning.PruningIsSafe` | scripts/mercadopago_overlay.py:1438-1454 | what is pruned is exactly what stopped being reached, disjoint from what surviving operations reach, and those reach the same schemas with the same content |
| `MercadoPagoPruning.FinalReach` | scripts/mercadopago_overlay.py:1438-1470 | the finished document reaches no more than any closed set with what survives, what the lifted enums refer to and the stored names it starts to use, and what the overlay writes |
| `MercadoPagoPruning.DanglesExactlyWhenUnprunedReaches` | scripts/mercadopago_overlay.py:1438-1470 | for all tables and documents, the finished document reaches a removed schema if and only if the same run without pruning reaches one (a pruned schema the overlay writes anew counts as written, and a pruned one is not lifted) |
| `MercadoPagoPruning.NothingDangles` | scripts/mercadopago_overlay.py:1438-1470 | it reaches none when every stored name the overlay starts to use, and what the lifted enums refer to, was in use |
| `MercadoPagoDangling.ReachIsInUse` | scripts/mercadopago_overlay.py:1438-1470 | where the overlay writes over no reference, the finished document reaches exactly what the given one leads to: from the operations that survive and those that are added, through stored schemas, lifted components and observed schemas |
| `MercadoPagoDangling.DanglesExactlyWhenLostNameIsInUse` | scripts/mercadopago_overlay.py:1438-1470 | it reaches a removed schema if and only if that way leads to a name that is pruned and not written anew |
| `ShippedPruning.StoredNewNameCanDangle` | scripts/mercadopago_overlay.py:1458-1470 | with the shipped tables, a document for which it reaches one |
| `ShippedPruning.ShippedReach` | scripts/mercadopago_overlay.py:1438-1470 | what the shipped overlay leaves reachable, on every document |
| `ShippedPruning.ShippedDanglesExactlyWhenLostNameIsInUse` | scripts/mercadopago_overlay.py:1438-1470 | the exact condition for the shipped tables |
| `ShippedTables.MercadoPagoFits` | scripts/mercadopago_overlay.py:669-1117 | the shipped tables, whatever their prose, satisfy the hypotheses of idempotence and conservation |
| `ShippedTables.MercadoPagoIsIdempotent` | scripts/mercadopago_overlay.py:1399-1403 | the shipped Mercado Pago overlay is idempotent on every document |
| `ShippedTables.MercadoPagoPathsApart` | scripts/mercadopago_overlay.py:669-1117 | no path the shipped tables take an operation from is one they give an operation to |
| `ShippedAdditions.AdditionsAreClosed` | scripts/mercadopago_overlay.py:506-589 | the shipped observed schemas and added operations refer to observed schemas only |
| `ShippedAdditions.ShippedTablesExist` | scripts/mercadopago_overlay.py:669-1117 | tables that meet every hypothesis about the shipped ones exist |
| `AddedOperations.Render` | scripts/mercadopago_overlay.py:1301-1364 | the loops and branches build the specified operation object |
| `AddedOperations.ParametersAreExact` | scripts/mercadopago_overlay.py:1317-1343 | the parameters are, in order, each placeholder required in the path, each required query name, and each other query name not required, with their types and no other key |
| `AddedOperations.PathParametersAreNames` | scripts/mercadopago_overlay.py:1317-1325 | of a template written out from its pieces, the path parameters are its names |
| `AddedOperations.BodyIsDeclaredExactly` | scripts/mercadopago_overlay.py:1359-1363 | there is a body, and it is required, if and only if the entry has one |
| `AddedOperations.HeadingsAreKept` | scripts/mercadopago_overlay.py:1344-1346 | the identifier and the summary are the entry's |
| `AddedOperations.DescriptionIsKept` | scripts/mercadopago_overlay.py:1347-1351 | the description begins with the entry's |
| `AddedOperations.ResponseIsExact` | scripts/mercadopago_overlay.py:1312-1316 | the one response, 200, carries as JSON a reference to the observed schema, or any object when there is none |
| `AddedOperations.OperationRefs` | scripts/mercadopago_overlay.py:1312-1316 | a rendered operation refers to its observed response's schema, and to nothing when there is none |
| `JsonTrees.Copy` | scripts/openpix_overlay.py:687 | the copy holds the same document in objects of its own |
| `OpenPixNumericWalk.Walk` | scripts/openpix_overlay.py:474-516 | the recursion, writing the tree in place, turns the document into the specified map of it and counts every claimed schema once |
| `OpenPixNumericWalk.WalkKeys` | scripts/openpix_overlay.py:501-516 | the keys of a schema, in any order, each read as what it describes |
| `OpenPixNumericWalk.WalkParameter` | scripts/openpix_overlay.py:505-512 | of a parameter only the schema is read, under the parameter's name |
| `OpenPixWalk.ClaimedIsTheRule` | scripts/openpix_overlay.py:451-471 | a place is claimed if and only if the mapping there, under the name and reading the path down gives it, wants an integer |
| `OpenPixWalk.ClaimedExactly` | scripts/openpix_overlay.py:451-471 | a place is claimed if and only if it is read as a schema, its `type` is `number`, its description does not prove it otherwise, and that description proves a whole unit or the name in scope is listed |
| `OpenPixWalk.ProvenOtherwiseIsKept` | scripts/openpix_overlay.py:467-468 | a type whose description proves it no whole unit is left as it is, whatever its name |
| `OpenPixWalk.NameCarriesOn` | scripts/openpix_overlay.py:482-490 | through lists, `items`, `allOf`, `anyOf`, `oneOf` and `not`, to any depth, the name in scope stays |
| `OpenPixWalk.PropertyNamesSchema` | scripts/openpix_overlay.py:502-504 | under `properties` each key names its schema, and what describes the same value below it |
| `OpenPixWalk.ParameterNamesSchema` | scripts/openpix_overlay.py:505-512 | under `parameters` the schema of a parameter has its name, or none when that is absent or empty |
| `OpenPixWalk.RestOfParameterIsNotRead` | scripts/openpix_overlay.py:505-512 | nothing else of a parameter is read as a schema, at any depth |
| `OpenPixWalk.OtherKeysDropName` | scripts/openpix_overlay.py:515-516 | under any other key a schema is read with no name in scope |
| `OpenPixWalk.DataIsNotRead` | scripts/openpix_overlay.py:513-514 | nothing under an example, an enum or a default is read as a schema, at any depth |
| `OpenPixWalk.OnlyClaimedTypesChange` | scripts/openpix_overlay.py:497-499 | anywhere in the document, the only change is the `type` of a claimed schema, from number to integer |
| `OpenPixWalk.SkippedIsUntouched` | scripts/openpix_overlay.py:513-514 | an example, an enum or a default comes out as it went in, and nothing under it is claimed |
| `OpenPixProperties.RetypedIsQuiet` | scripts/openpix_overlay.py:474-516 | once walked, a document has nothing left to claim |
| `JsonPointers.UnescapeInvertsEscape` | scripts/openpix_overlay.py:577 | the two replacements, in this order, undo the escaping of any key (RFC 6901, sections 3 and 4) |
| `Text.LStripCutsPrefix` | scripts/openpix_overlay.py:576 | stripping cuts slashes only, and from the left only |
| `JsonPointers.Resolve` | scripts/openpix_overlay.py:558-581 | the loop returns the mapping the pointer's keys lead to, or none |
| `JsonPointers.ResolveIsExact` | scripts/openpix_overlay.py:558-581 | the pointer built from a list of keys finds the mapping at those keys in every document if and only if the list reads back |
| `JsonPointers.ReplacedIsLocal` | scripts/openpix_overlay.py:600-607 | patching what a pointer addresses changes nothing that lies apart from it |
| `OpenPixOverlay.Patch.DeclareProperties` | scripts/openpix_overlay.py:610-637 | missing properties are added and reported; whatever `properties` holds, the exception that escapes |
| `OpenPixOverlay.Patch.CorrectTypes` | scripts/openpix_overlay.py:519-555 | the properties declared with another type are replaced and reported |
| `OpenPixOverlay.Patch.PatchAllPointers` | scripts/openpix_overlay.py:584-607 | the places that resolve and have another type are replaced and reported |
| `OpenPixOverlay.Patch.RequireNonEmpty` | scripts/openpix_overlay.py:640-673 | the arrays without a bound get one and are reported, and the exception for a malformed `properties` |
| `OpenPixOverlay.ApplyOverlay` | scripts/openpix_overlay.py:676-719 | the whole run refines the specification and writes no object of the caller's |
| `OpenPixResult.PropertiesAreExact` | scripts/openpix_overlay.py:691-709 | every property of the result is what the four tables make of what the walk left, and is reported as added, retyped, lifted or bounded exactly when that table changed it |
| `OpenPixGoals.GoalsAreReached` | scripts/openpix_overlay.py:691-709 | whatever the document, the returned one declares every property of the table, has the corrected type at every property and pointer, no enum left to lift, and a bound on every array of the table |
| `OpenPixGoals.SchemasKeepTheRest` | scripts/openpix_overlay.py:610-673 | every schema, named by a table or not, keeps its keys and what is under each but `properties`; only a component a lift names appears |
| `OpenPixGoals.ReportCountsClaims` | scripts/openpix_overlay.py:711-712 | the count reported for the whole run is the number of claimed places of the document |
| `OpenPixGoals.RaisesExactly` | scripts/openpix_overlay.py:519-673 | which exception escapes, or none, is decided by the walked document: a block that is no mapping, then properties that cannot take an entry, then properties that are no mapping |
| `OpenPixGoals.WalkKeepsReadable` | scripts/openpix_overlay.py:474-516 | the walk does not decide whether the block is a mapping: the document does |
| `OpenPixResult.PointersAreExact` | scripts/openpix_overlay.py:698-702 | the place a pointer leads to holds the table's schema, unless it is not there or had that type, and the pointer is reported exactly when it was patched |
| `OpenPixResult.UnnamedSchemasAreKept` | scripts/openpix_overlay.py:689-709 | a schema no table names is what the walk left |
| `OpenPixResult.PlacesElsewhereAreKept` | scripts/openpix_overlay.py:689-709 | outside the schemas, a place apart from every pointer holds what the walk left |
| `OpenPixIdempotence.PointersSettle` | scripts/openpix_overlay.py:584-607 | after patching, no pointer of the table finds anything to patch |
| `OpenPixIdempotence.SchemasSettle` | scripts/openpix_overlay.py:691-709 | no later step undoes what an earlier one settled, so no table finds anything to do |
| `OpenPixIdempotence.FinalIsQuiet` | scripts/openpix_overlay.py:689-709 | no step introduces a schema the walk would claim |
| `OpenPixIdempotence.ApplyIsIdempotent` | scripts/openpix_overlay.py:676-719 | a second application returns the same document and reports zero retyped fields and empty lists |
| `ShippedTables.OpenPixFits` | scripts/openpix_overlay.py:46-407 | the shipped tables satisfy the hypotheses of idempotence |
| `ShippedTables.OpenPixIsIdempotent` | scripts/openpix_overlay.py:676-719 | the shipped OpenPix overlay is idempotent on every document |
| `EnumValues.ValueTypes.Rewrite` | tempest_fastapi_sdk/mypy.py:246-293 | the rewritten type, and the flag set exactly when the separate search finds an enum |
| `EnumValues.RewrittenIsPlain` | tempest_fastapi_sdk/mypy.py:206-224 | the rewritten type mentions no enum at any depth |
| `EnumValues.PlainIsUnchanged` | tempest_fastapi_sdk/mypy.py:263-275 | a type without enums is left as it is |
| `EnumValues.RewriteIsIdempotent` | tempest_fastapi_sdk/mypy.py:263-293 | rewriting a rewritten type finds nothing to rewrite |
| `EnumValues.StoredValueHasRewrittenType` | tempest_fastapi_sdk/mypy.py:246-314 | what a model stores of any value of the declared type belongs to the rewritten type |
| `EnumValues.RewrittenMeaning` | tempest_fastapi_sdk/mypy.py:246-293 | at any depth, the rewritten type holds exactly what the declared one does, with an enum or a literal of one replaced by text when its class mixes in `str`, else by numbers when it mixes in `int`, else by anything |
| `EnumValues.EveryValueIsStored` | tempest_fastapi_sdk/mypy.py:296-314 | every value of the declared type has something to store |
| `EnumValues.MakeUnionMeaning` | tempest_fastapi_sdk/mypy.py:283-288 | a union holds what one of its items holds, however it is simplified |
| `EnumValues.AcceptValues` | tempest_fastapi_sdk/mypy.py:317-337 | each parameter is widened exactly when it mentions an enum |
| `EnumValues.WidenedTakesBoth` | tempest_fastapi_sdk/mypy.py:317-337 | a widened parameter takes exactly the declared values and the rewritten ones, so anything stored in the field |
| `EnumValues.Metadata.Record` | tempest_fastapi_sdk/mypy.py:136-161 | recording a class sets its own flag, or the first one recorded above it |
| `EnumValues.FlagIsTheNextOne` | tempest_fastapi_sdk/mypy.py:136-161 | whatever its bases, a class takes the flag of the class after it in its own resolution order, unless it declares one |
| `EnumValues.FlagIsNearestDeclared` | tempest_fastapi_sdk/mypy.py:136-177 | with single inheritance, the flag recorded on a class is the one its nearest ancestor, itself first, declares |
| `SqlShell.Classify` | tempest_fastapi_sdk/admin/sql_shell.py:544-617 | in any walk order, the capability is the highest in the statement that is executed, attained at the decisive node; the two early returns as they are |
| `SqlShell.PragmaIsReadExactly` | tempest_fastapi_sdk/admin/sql_shell.py:592-617 | on its tree, a pragma needs `READ` if and only if it names an introspection pragma, with an argument or bare, or is a bare setting with a name that does not act; else `ADMIN` |
| `SqlShell.AssigningPragmaIsAdmin` | tempest_fastapi_sdk/admin/sql_shell.py:614-616 | an assignment or call of anything but an introspection pragma is classified `ADMIN` |
| `SqlShell.ExplanationIsClassified` | tempest_fastapi_sdk/admin/sql_shell.py:571-576 | `EXPLAIN ANALYZE` is classified as what it executes, and any other explanation as `READ` |
| `SqlShell.ClassificationIsUnique` | tempest_fastapi_sdk/admin/sql_shell.py:157-165 | no walk order gives another capability |
| `SqlShell.CheckPolicy` | tempest_fastapi_sdk/admin/sql_shell.py:653-695 | no refusal if and only if every rule holds; otherwise the bluntest objection to the first statement that breaks one |
| `SqlShell.AcceptsExactly` | tempest_fastapi_sdk/admin/sql_shell.py:653-695 | a submission is accepted if and only if it is short enough and each statement is of a granted family, names no denied table and none outside a non-empty allow list, whatever the case of its letters, and an `UPDATE` or `DELETE` has a `WHERE` when the policy asks for one |
| `SqlShell.ReadOnlyExactly` | tempest_fastapi_sdk/admin/sql_shell.py:343-351 | a policy is read-only if and only if it grants nothing but `READ` |
| `SqlShell.RefusalIsUnique` | tempest_fastapi_sdk/admin/sql_shell.py:653-695 | there is one such reason at most, and none for a submission that is accepted |
| `SqlShell.ReadOnlyAcceptsNoWrites` | tempest_fastapi_sdk/admin/sql_shell.py:343-351 | under a read-only policy, no node of an accepted statement is a mapped writing one, but for a plan that is not executed and a pragma that introspects or reads a setting |
| `SqlShell.DownwardClosedGrantsAll` | tempest_fastapi_sdk/admin/sql_shell.py:157-170 | a policy closed downwards grants every mapped capability an accepted statement contains |
| `SqlShell.GrantsAllExactlyWhenDownwardClosed` | tempest_fastapi_sdk/admin/sql_shell.py:166-170 | a policy has granted all that each statement it accepts contains if and only if it is closed downwards |
| `SqlShell.DeleteThatInsertsIsAccepted` | tempest_fastapi_sdk/admin/sql_shell.py:551-553 | a `DELETE` with an insertion in a common table expression is accepted by a policy that grants only `DELETE` |
| `SqlShell.NestsAreGrantedExactlyWhenContained` | tempest_fastapi_sdk/admin/sql_shell.py:166-170 | the same over the statements in which only queries are nested: the policy grants, with each capability but `DROP`, those of a query that rank below it |
| `SqlShell.WritesAreGuardedExactlyWhenNoneIsGranted` | tempest_fastapi_sdk/admin/sql_shell.py:684-694 | every `UPDATE` and `DELETE` in an accepted statement has a `WHERE` if and only if the policy grants nothing above `INSERT` |
| `SqlShell.NestedWritesAreGuardedExactlyWhenNoneIsHeld` | tempest_fastapi_sdk/admin/sql_shell.py:684-694 | the same over the statements in which only queries are nested: the policy grants nothing but `READ`, `INSERT` and `DROP` |
| `SqlShell.DeleteThatUpdatesIsAccepted` | tempest_fastapi_sdk/admin/sql_shell.py:684-694 | an `UPDATE` without a `WHERE` in a common table expression of a `DELETE` with one is accepted by a policy that requires it |
| `SqlShell.OnlyWriteHasWhere` | tempest_fastapi_sdk/admin/sql_shell.py:684-694 | the only write of an accepted statement classified by it has a `WHERE` under the rule |
| `SqlShell.DenyWins` | tempest_fastapi_sdk/admin/sql_shell.py:353-368 | a submission that names a denied table, in any case, is never accepted |
| `SqlShell.Service.AuditEntry` | tempest_fastapi_sdk/admin/sql_shell.py:745-754 | one entry is received and a failing auditor leaves nothing else |
| `SqlShell.Service.Run` | tempest_fastapi_sdk/admin/sql_shell.py:830-865 | rows cut at the limit and flagged exactly when cut; committed state changes only on success and under a writing policy |
| `SqlShell.Service.Execute` | tempest_fastapi_sdk/admin/sql_shell.py:756-828 | outcome, executed statement, committed state and the one audit entry of an attempt; none of the first three depends on the auditor |
| `SqlShell.Service.ExecuteAll` | tempest_fastapi_sdk/admin/sql_shell.py:756-865 | over any number of attempts: the statements that ran and the committed state are those of the attempts one by one, each outcome is the one the attempt has on its own in the state before it, whatever the auditor does, and the k-th new entry reports the k-th attempt that is audited |
| `SqlShell.ReadOnlyCommitsNothing` | tempest_fastapi_sdk/admin/sql_shell.py:863-864 | under a read-only policy no run changes the committed state |
| `SqlShell.OnlyApprovedStatementsRun` | tempest_fastapi_sdk/admin/sql_shell.py:777-798 | every statement that runs is the first of a submission the policy accepted |
| `TotpClaim.MatchesIsFresh` | tempest_fastapi_sdk/admin/auth.py:511-522 | the one comparison with the row holds if and only if the step is newer than every step ever accepted or claimed |
| `TotpClaim.NoStepIsAcceptedTwice` | tempest_fastapi_sdk/admin/auth.py:469-524 | over every interleaving of claims, commits and rollbacks, the steps of the claims whose verdict was true and whose session then committed strictly increase, so none is accepted twice (RFC 6238, section 5.2); the row has recorded exactly those and holds the last |
| `TotpClaim.RowTellsVerdicts` | tempest_fastapi_sdk/admin/auth.py:508-524 | over every interleaving, a row holds the steps of the granted claims, and those its open transaction was told yes for, and nothing else |
| `TotpClaim.GrantedCodeIsSpent` | tempest_fastapi_sdk/admin/auth.py:479-483 | a code whose claim was granted in any run is refused after any further run |
| `TotpClaim.VerdictSpendsStep` | tempest_fastapi_sdk/admin/auth.py:511-524 | after a true verdict the next claim of that step is refused, to the same session at once and to any once it has committed |
| `TotpClaim.WaitsExactlyForOthers` | tempest_fastapi_sdk/admin/auth.py:508-522 | a claim waits if and only if another session was told yes for the user and has neither committed nor rolled back |
| `TotpClaim.AcceptedCodeIsSpent` | tempest_fastapi_sdk/admin/auth.py:479-483 | an accepted code is refused after any further run |
| `TotpClaim.StaleCopyIsHarmless` | tempest_fastapi_sdk/admin/auth.py:481-483 | a stale copy of the row gets the same verdict and leaves the same table |
| `TotpClaim.RollbackUndoesClaim` | tempest_fastapi_sdk/admin/auth.py:486-488 | a claim that is rolled back leaves no trace |
| `TotpClaim.UserTable.ClaimMfaStep` | tempest_fastapi_sdk/admin/auth.py:498-524 | the verdict is that there is a secret, a matching step and it is fresh; after a true one the row holds the step and a second claim of it is refused |
| `TotpClaim.UserTable.CommitTransaction` | tempest_fastapi_sdk/admin/auth.py:486-488 | the step the protocol takes when the caller commits: the session's claims are accepted in every row, and the history stays in order |
| `TotpClaim.UserTable.RollbackTransaction` | tempest_fastapi_sdk/admin/auth.py:486-488 | the step it takes when the caller does not: the session's claims are gone, the others stay |
| `SessionRevocations.Backend.Incr` | tempest_fastapi_sdk/utils/throttle.py:442-459 | an absent or expired key starts again without an expiry |
| `SessionRevocations.Backend.Expire` | tempest_fastapi_sdk/utils/throttle.py:479-492 | an absent or expired key is left absent |
| `SessionRevocations.Revocations.Revoke` | tempest_fastapi_sdk/admin/session.py:378-388 | the mark after both steps, and none without a session id |
| `SessionRevocations.Revocations.IsRevoked` | tempest_fastapi_sdk/admin/session.py:390-402 | true exactly while a mark for a non-empty id is alive |
| `SessionRevocations.MarksAreHeld` | tempest_fastapi_sdk/admin/session.py:378-388 | over every interleaving, a revocation that took hold keeps its mark for the whole lifetime from its increment |
| `SessionRevocations.RevocationsAreCovered` | tempest_fastapi_sdk/admin/session.py:378-388 | over every interleaving, a revocation that finds a mark relies on one of the same session that took hold no later |
| `SessionRevocations.LogoutHoldsExactlyWhenMarkOutlivesCookie` | tempest_fastapi_sdk/admin/session.py:344-376 | no run accepts a cookie of a revoked session, signed before its revocations, and reports it not revoked, however far any of them got, if and only if marks outlive cookies |
| `SessionRevocations.SecondStepDecides` | tempest_fastapi_sdk/admin/session.py:387-388 | for cookies signed at any time before it, a revocation keeps its promise from its second step on if and only if that step finds the mark or those cookies have lapsed |
| `ExportOrder.NaturalAlternates` | scripts/export_order.py:17-34 | text and numbers alternate by position |
| `ExportOrder.NamesAreTotallyOrdered` | scripts/export_order.py:37-52 | on names that do not begin with a digit, comparing keys never fails and is a total order |
| `ExportOrder.GroupIsExact` | scripts/export_order.py:37-52 | names in capitals come first, then capitalised ones, then the rest |
| `ExportOrder.TextIsAlphabetical` | scripts/export_order.py:17-34 | text comes before text if and only if it ends, or has the smaller character, where they first differ |
| `ExportOrder.KeysComparePartByPart` | scripts/export_order.py:17-34 | keys compare by the first part that differs, words alphabetically and numbers by value |
| `ExportOrder.NumeralsCompareByValue` | scripts/export_order.py:17-34 | after the same word, the smaller number comes first |
| `ExportOrder.PartsRebuildName` | scripts/export_order.py:17-34 | the parts of a name without leading zeros rebuild it |
| `ExportOrder.CanonicalKeysDiffer` | scripts/export_order.py:37-52 | so two such names never share a key |
| `ExportOrder.LeadingZeroTies` | scripts/export_order.py:30-34 | two names that do |
| `ExportOrder.SortNames` | scripts/regen_mercado_pago.py:314 | the sorted list has each name once, in order |
| `ExportOrder.ExpectedExports` | scripts/regen_mercado_pago.py:288-314 | the list has a name if and only if it is hand-written or in some generated module, once, in order |
| `ExportOrder.ListingIsGrouped` | scripts/regen_mercado_pago.py:297-314 | in a sorted list constants come before classes and classes before the rest, and within each no name follows one with a greater key |
| `ExportOrder.OrderIsUniqueExactlyWhenKeysDiffer` | scripts/regen_mercado_pago.py:311-314 | the list does not depend on the order a set is iterated in if and only if no two names share a key |
| `ExportSplice.ApplyExports` | scripts/regen_mercado_pago.py:317-352 | the written file, or the error when the block is not there |
| `ExportSplice.BlockIsExact` | scripts/regen_mercado_pago.py:343-347 | the lines written: the opening one, each name quoted with a comma, the closing one |
| `ExportSplice.BlockTellsNames` | scripts/regen_mercado_pago.py:343-347 | two blocks are equal if and only if they list the same names |
| `ExportSplice.SplicedBlock` | scripts/regen_mercado_pago.py:335-338 | the block that was written is found again, at the same place |
| `ExportSplice.SpliceIsLocal` | scripts/regen_mercado_pago.py:343-352 | the lines before and after are kept, the block lists the names in order, and a later splice replaces exactly it |
| `ExportSplice.RewriteIsIdempotent` | scripts/regen_mercado_pago.py:333-352 | for names without line breaks, writing again gives the identical file |
| `ExportSplice.NoBlockNoWrite` | scripts/regen_mercado_pago.py:336-341 | the error is raised exactly when no closing line follows an opening one |

## Left out

- `OpenPixIdempotence.ApplyIsIdempotent`: assumes the description patterns cannot tell a description that is not text from the same one walked; for descriptions that are text nothing is assumed.
- `SessionRevocations.LogoutHoldsExactlyWhenMarkOutlivesCookie`: the cookie and the backend are read against one clock, and a session id is not signed again once it has been revoked, as the console draws a new one for each session.
- `MercadoPagoDangling.DanglesExactlyWhenLostNameIsInUse`: assumes no reference in the description of an operation or in a property whose enum is lifted, both of which the overlay writes over; `MercadoPagoPruning.DanglesExactlyWhenUnprunedReaches` assumes nothing.
- `MercadoPagoPruning.NothingDangles`: a condition that is enough, easier to see in a document than the exact one.
- `OverlayEnums.LiftWidensExactlyWhenValuesFit`: a new component and a property without `anyOf` or `$ref`; `OverlayEnums.LiftWidensExactlyWhenEachValueIsTaken` covers the others.
- `EnumValues.FlagIsNearestDeclared`: single inheritance; with several bases the flag is the one `EnumValues.FlagIsTheNextOne` states.
- `TotpClaim.UserTable.ClaimMfaStep`: the window around the clock in which a code matches a step is a parameter; computing codes is not modelled.
- The order of a mapping's keys: mappings are maps, so a loop over one is proved for every order, and a report lists entries of the tables or sets of them and not rendered text.
- Aliasing in a loaded document: a document is a tree. The numeric walk runs in place on objects; the later steps work on mappings held in fields that they reassign.
- The regular expressions over descriptions: three predicates on text. What `str` makes of a value that is not text: a function.
- Python's `True == 1` when comparing JSON values, Unicode case and digits (`upper`, `lower`, `isupper`, `\d` on ASCII only).
- The shipped prose, and whether the correction tables are right about the real APIs.
- Fetching, hashing, argument parsing, printing and code generation in the `regen_*` and `*_diff` scripts, and how exported names are read from modules.
- Parsing SQL and reading table names off a tree (`analyze_sql`, `_tables_of`): a statement comes with its tree, tables and text, and any tree is one unless a lemma says which; timeouts, timing and column names.
- Signing, payload decoding and the HTTP objects around cookies; a cookie is a session id and the time of a signature that verifies.
- Password checking, loading a principal and the admin router: they would only add easy members.
- Mypy's recursive aliases, variadic tuples and callable types, and which attribute reads reach the hooks (`_owner_field`): types are finite trees after alias expansion.
- The OpenPix and zap scripts' own copies of the export splice.
