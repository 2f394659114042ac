# Verification of the simulation harness

The simulation harness turns an OpenAPI document into a running, stateful
simulation. These Dafny modules model the parts of it whose correctness is not
visible in one function, and prove what those parts promise.

**From API document to run-time contract.** Schemas are clustered into entities
(`Naming`, `Identity`, `IdentityPass`), each with a primary key, a collection, enums
and a storage form for nested arrays and maps. LLM output is then merged in
(`Merge`), an LLM-written JSON Schema is stamped with the derived contract and
checked (`Contract`, `SchemaCheck`), and at run time the loader reads the primary
keys back from that schema (`Loader`). Everything an LLM returns is an arbitrary
parameter. `Pipeline` states what survives all stages together: the key the loader
finds for a derived collection is the key the derivation chose, all generations agree
on it however their LLM output differs, and derived enums and element shapes stand in
the accepted schema under an exact condition. Other modules say what single steps
decide, over the raw keywords of schemas and without the steps' own functions:
`NamingProperties` and `NamingRules` (names and keys), `ElementMeaning` (unions, nested
elements), `IdentityProperties`, `ClusterFields` and `EnumUnion` (clusters), `ShapeRules`
and `ElementShapes` (storage forms), `SurvivorRules` and `MergeProperties` (composition),
`StampMeaning`, `ContractStamps`, `ContractSurvival` and `SharedDefinitions` (stamping),
`CheckMeaning` (complaints).

**A running simulation.** `Sessions` interleaves tool calls, resets, evictions and
database replacements of one instance, step by step between suspension points;
`SessionExpiry` says when a session ends. `Lifecycle` is the status machine of a
simulation record and the creator that drives it; `Hosting` is the one-simulation slot
with background creators that may be cancelled at any suspension point, and
`HostingRuns` follows the requests that succeed.

**State.** `Store` and `StoreProperties` are the per-thread store (seeding, validated
writes, filtering, sorting by several keys), `StoreRules` and `QueryMeaning` are what it
accepts and what queries say of numbers, strings and paths, `Registry` the cache of stores, whose methods are proved
against the same functions that are the cache's steps in `Sessions`.

**Planning and resolving.** `Batches`, `BatchRules` and `FirstFitDecreasing` are the
packing of operations into LLM batches, `OperationIds` and `OperationRules` the naming
of operations, `RefExpansion` the expansion of `$ref`s over cyclic documents.

`StableSort`, `Names`, `Values`, `Json`, `Ir` and `Wrappers` are what these share. Where the
program computes step by step, a method does the same and is proved equal to a
specification function; the theorems are about that function. Objects that the
program updates in place (`SimulationStore`, `StoreRegistry`, `SimulationInstance`,
`SimulationRecord`, `SimulationCreator`, `SimulationHost`, and the schema document
that stamping rewrites) are classes.

## Where the code differs from what one may expect

- The docstring of `sanitize_operation_id` says that valid ids are returned unchanged.
  The code also strips separators at both ends: `OperationIds.ValidIdChanged` gives an
  id that changes, `OperationIds.SanitizeFixpoint` the exact condition.
- Rows are not always filed under their own key field, because `update` accepts a patch
  that changes it: `StoreProperties.KeyPatchMisfiles` is such an update,
  `StoreProperties.FiledUnlessKeyPatched` the exact condition.
- A second `start` on a generated record may be accepted while the first one's creator
  runs. The host then no longer knows the first creator: `Hosting.DoubleStartRevives`
  is a run in which a deleted simulation comes back. `Hosting.DeleteFinal` says exactly
  when a delete is final, `Hosting.RefillNeedsDoubleStart` that only such a start can
  undo one, and `Hosting.GuardExact` that such a start, and nothing else, breaks the
  creator's hold on the slot. `Hosting.LeftoverWrites` names the creators that can still
  write after a delete.
- Two collections may share one definition if their keys agree. The later one's enums and
  element schemas then silently replace the earlier one's
  (`SharedDefinitions.SharedStampLost`); `ContractStamps.StampsReachSchema` is the exact
  condition for a stamp to survive.
- A component with a dotted name may be a source of two clusters
  (`IdentityProperties.DottedNameCollides`); `IdentityProperties.OneCluster` says when it
  is a source of one.
- Different nouns may pluralize alike (`IdentityProperties.PluralizeNotInjective`), so
  the derivation has to raise on colliding collections; unless it raises, none collide.
- The repository's README says that tool calls are serialised in FIFO order. The code
  holds its lock only while it looks at the queue depth and refuses a call when the queue
  is full: `Sessions.TwoAtOnce` is a run in which two calls execute at once, and
  `Sessions.SerialisedExactly` says that calls are serialised exactly if the queue bound
  is one. What holds for any bound is `Sessions.AdmissionSafe`.
- The message limit is checked before a call and counted after it, so overlapping calls
  exceed it: `Sessions.BoundAttained` is a run that does, `Sessions.LimitKeptExactly` says
  that it is kept exactly if the queue bound is one.

## Model

| member | source | states |
|---|---|---|
| Pipeline.DerivedKeysReachRuntime | src/simulation_harness/state/loader.py:61-125 | End to end, for any API schemas, any LLM output the stages accept, and any store of the database: the loader does not raise, and for a derived collection it reads the key the derivation chose |
| Pipeline.GenerationsAgree | src/simulation_harness/skills/generation/stages/analyze/merge.py:215-307 | All generations of one API, however their LLM outputs differ, give the run time the same key for every derived collection |
| ContractSurvival.ContractSurvives | src/simulation_harness/skills/generation/stages/schema.py:258-305 | A schema that is clean once enforced makes the loader raise on no store and read exactly the contract's key, also where collections share a definition |
| ContractSurvival.StampedKey | src/simulation_harness/skills/generation/stages/schema.py:34-59 | In a clean schema every contract collection resolves to a definition carrying that collection's own key, although the collection stamped last decides |
| ContractSurvival.EnforceTouchesOnlyContract | src/simulation_harness/skills/generation/stages/schema.py:258-305 | Of a schema of any shape, enforcing changes the top-level `required` and `additionalProperties`, and each definition exactly so: the last sharing collection's key, the missing keys of all of them appended to `required`, and in each typed property the last written value of each stamped keyword; nothing else |
| Contract.EnforceIdempotent | src/simulation_harness/skills/generation/stages/schema.py:258-305 | Enforcing twice is enforcing once, on every JSON value, malformed or with shared definitions |
| Contract.PutSwap | src/simulation_harness/skills/generation/stages/schema.py:151-165 | Two writes to a definition either commute or the later one hides the earlier, which is why order and sharing cannot make enforcement drift |
| Contract.SchemaDocument.EnforceContract | src/simulation_harness/skills/generation/stages/schema.py:258-305 | The stage's in-place loop leaves the document in exactly the enforced form |
| Contract.StampElementShapes | src/simulation_harness/skills/generation/stages/schema.py:219-255 | The loop over an entity's fields performs the shape writes of all fields, in order, and nothing else |
| Contract.StampEnums | src/simulation_harness/skills/generation/stages/schema.py:151-165 | The loop over the derived enums performs their writes, guarded by the declared type |
| ContractStamps.StampsReachSchema | src/simulation_harness/skills/generation/stages/schema.py:219-255 | For every collection and every derived item schema, reference and enum: the enforced schema says it, whatever the LLM wrote, exactly if the property is declared with the matching type and no later stamp on the same definition says otherwise |
| SharedDefinitions.SharedStampLost | src/simulation_harness/skills/generation/stages/schema.py:125-141 | A generation the stages accept, of two entities whose collections share a definition and a key: the first collection's derived enum is overwritten by the second's |
| Pipeline.DerivedStampsReachSchema | src/simulation_harness/skills/generation/stages/schema.py:258-305 | End to end: for every derived entity, its enums and the shapes of its fields stand in the accepted schema exactly under that condition, and for a definition of its own exactly where the property is declared with the matching type |
| ContractStamps.ElementItemsMeaning | src/simulation_harness/skills/generation/stages/schema.py:168-208 | A reference that keeps no field is stored as a string; any other object element as an object with exactly the kept fields, each with its type and its values, requiring exactly the required ones |
| StampMeaning.FieldWrites | src/simulation_harness/skills/generation/stages/schema.py:219-255 | Each stamp of a field is its element schema, under `items` of an array or `additionalProperties` of a map, or what the elements point at; there is none exactly if the shape has no element schema |
| StampMeaning.ItemsMeaning | src/simulation_harness/skills/generation/stages/schema.py:168-208 | The element schema keyword by keyword: a named scalar type, a string for a bare reference, else an object with each field described by its last entry and the required names in order; nothing for a scalar without a type |
| StampMeaning.CollectionStamps | src/simulation_harness/skills/generation/stages/schema.py:258-305 | Every write of a collection is its key, a stamp of a field of its entity, or the enum of a string property |
| StampMeaning.CollectionWritesAll | src/simulation_harness/skills/generation/stages/schema.py:258-305 | Conversely the key, all stamps of its entity and all its enums are written |
| StampMeaning.EntityOfMeaning | src/simulation_harness/skills/generation/stages/schema.py:287-305 | Of several entities with one collection the last one speaks for it |
| StampMeaning.DefNameMeaning | src/simulation_harness/skills/generation/stages/schema.py:34-59 | A collection belongs to a definition exactly if the reference found under its items starts with `#/$defs/` and ends with that name |
| SchemaCheck.ValidateSchema | src/simulation_harness/skills/generation/stages/schema.py:62-141 | The report holds an error exactly when the corresponding fault is present (missing, undeclared, unreferenced, undefined, key not declared, key not scalar, differing keys), and when the check raises instead |
| CheckMeaning.FaultMeaning | src/simulation_harness/skills/generation/stages/schema.py:85-141 | What each complaint says of the schema's keywords alone: the collection, its reference, the definition it leads to and the declaration of the key there |
| CheckMeaning.RaisesMeaning | src/simulation_harness/skills/generation/stages/schema.py:100-124 | The check of a collection raises exactly if the `properties` of its definition hold something that is no object, and there is a key to look up |
| SchemaCheck.CheckCollections | src/simulation_harness/skills/generation/stages/schema.py:85-125 | The loop over the shared collections raises exactly if some collection makes it, and otherwise collects each complaint and groups the collections by shared definition |
| SchemaCheck.CheckShared | src/simulation_harness/skills/generation/stages/schema.py:125-141 | A definition is reported exactly when two of its collections have different keys |
| Loader.InferPrimaryKeys | src/simulation_harness/state/loader.py:61-125 | Succeeds exactly when every store has a readable key and then maps each to it; names a store exactly when the first store without a readable key has a readable definition without a key, and crashes exactly when that store's lookup fails or the schema is no object |
| StampMeaning.KeyInMeaning | src/simulation_harness/state/loader.py:84-125 | Over the keywords of the definition: what it declares, whatever that is; else `id` exactly if it both requires and has one; no key otherwise, and a failure where these cannot be searched |
| StampMeaning.NoDefinition | src/simulation_harness/state/loader.py:84-103 | A store without a reference to a definition is keyed by `id`; lookups in what is no object, references that are no text and definitions that are no objects fail |
| IdentityPass.DeriveIdentity | src/simulation_harness/skills/generation/stages/analyze/identity.py:753-851 | Both passes, although they walk their maps in an arbitrary order, return one model, a function of the schemas alone |
| IdentityPass.AbsorbSchema | src/simulation_harness/skills/generation/stages/analyze/identity.py:414-449 | The in-place absorption of one schema, property by property, is the cluster step of the specification |
| IdentityPass.AbsorbProperty | src/simulation_harness/skills/generation/stages/analyze/identity.py:414-449 | One property with the enum loop over its elements: types first seen stay, sources and enums accumulate |
| IdentityPass.ElementShapeFor | src/simulation_harness/skills/generation/stages/analyze/identity.py:591-693 | The branches and the sifting loop decide how one container's elements are stored as specified |
| IdentityPass.CollectionsCollide | src/simulation_harness/skills/generation/stages/analyze/identity.py:720-750 | The grouping loop reports a collision exactly when two nouns pluralize alike |
| IdentityPass.SiftFields | src/simulation_harness/skills/generation/stages/analyze/identity.py:669-682 | The loop keeps exactly the element fields that neither the target nor a hop carries, and collects the hops |
| IdentityProperties.SchemasPartitioned | src/simulation_harness/skills/generation/stages/analyze/identity.py:753-851 | For any name and noun: the name is a source of that cluster exactly if its own key names the noun, or some decided schema has, below a property with that dotted name, an element with another key and this noun; and it is reported exactly if no key is decided for it |
| IdentityProperties.JobsMeaning | src/simulation_harness/skills/generation/stages/analyze/identity.py:800-835 | The schemas absorbed are exactly the components whose key is decided and, below each of their properties, the element with a key of its own that is not its holder's; with noun, key and source |
| IdentityProperties.JobsInOrder | src/simulation_harness/skills/generation/stages/analyze/identity.py:800-835 | They are absorbed by name, each component before its elements and these by property |
| IdentityProperties.ArrayOfEntities | src/simulation_harness/skills/generation/stages/analyze/identity.py:814-835 | An array of objects with a key of their own makes a cluster of the noun of that key, with the dotted name as a source |
| IdentityProperties.NestedDerived | src/simulation_harness/skills/generation/stages/analyze/identity.py:814-835 | So does a property of any other form that has such an element |
| ElementMeaning.ElementForms | src/simulation_harness/skills/generation/stages/analyze/identity.py:337-361 | The forms of an element in their order of preference - values of a map with properties or as a union, then the inner schema with its own properties or as a union - inside the items of an array, or else the property itself; nothing else is an element, and it is only one |
| ElementMeaning.NestedMeaning | src/simulation_harness/skills/generation/stages/analyze/identity.py:337-361 | What the code finds nested in a property is the first of these places that describes an object, and nothing if none does |
| ElementMeaning.FlattenMeaning | src/simulation_harness/skills/generation/stages/analyze/identity.py:309-334 | A schema flattens exactly if its `anyOf`, or its `oneOf` where that is missing or empty, lists object schemas only, and then to their one object schema: all properties folded, the common required names in order |
| ElementMeaning.IdentityKeyMeaning | src/simulation_harness/skills/generation/stages/analyze/identity.py:140-196 | A declared key stands; otherwise the rules decide among the schema's own properties or its union's, and without either there is no key |
| ElementMeaning.ContainerMeaning | src/simulation_harness/skills/generation/stages/analyze/identity.py:364-378 | A container is exactly an array with non-empty items or an object with a non-empty schema for its values |
| IdentityProperties.OneCluster | src/simulation_harness/skills/generation/stages/analyze/identity.py:753-851 | A decided schema is a source of exactly one cluster, that of its own key, if and only if no entity with another noun is recorded under its name |
| IdentityProperties.DottedNameCollides | src/simulation_harness/skills/generation/stages/analyze/identity.py:800-835 | A component named like another's nested entity is a source of two clusters |
| IdentityProperties.UndecidableIrrelevant | src/simulation_harness/skills/generation/stages/analyze/identity.py:800-851 | Deleting every undecidable and deferred schema leaves the entities exactly as they are |
| IdentityProperties.CollectionsDistinct | src/simulation_harness/skills/generation/stages/analyze/identity.py:720-750 | Unless the derivation raises, no two entities share a collection |
| IdentityProperties.RaisesExactly | src/simulation_harness/skills/generation/stages/analyze/identity.py:720-750 | The derivation raises exactly if two nouns have the same plural |
| IdentityProperties.PluralizeNotInjective | src/simulation_harness/skills/generation/stages/analyze/identity.py:37-50 | Two nouns with one plural, so the collision check is needed |
| ElementShapes.NormalisationSound | src/simulation_harness/skills/generation/stages/analyze/identity.py:591-717 | Every derived entity is that of a cluster, and for each of its container fields: targets and hops are derived collections, the target key is the target's key, a map is never a reference, and every element field is kept inline, kept on the link, or carried from another source by the target or by a hop the target hangs off |
| ElementShapes.LinkFieldsHoldLeftovers | src/simulation_harness/skills/generation/stages/analyze/identity.py:682-685 | The link object holds every leftover field, only element fields, and the foreign key whenever anything is left over |
| ElementShapes.ForeignKeyIsField | src/simulation_harness/skills/generation/stages/analyze/identity.py:476-510 | A foreign key is a field of the element and names an existing cluster other than the holder |
| ShapeRules.PromotedShape | src/simulation_harness/skills/generation/stages/analyze/identity.py:646-693 | Elements with a key of their own whose noun is an entity: an array stores references to it, a map keeps all fields inline and names it |
| ShapeRules.ReferenceHolds | src/simulation_harness/skills/generation/stages/analyze/identity.py:669-693 | A reference keeps a link object exactly if some field is carried neither by another source of the target nor by a hop; it then holds the key and exactly these fields, and the hops recorded are exactly those needed for the others |
| ShapeRules.LinkOrder | src/simulation_harness/skills/generation/stages/analyze/identity.py:682-685 | In a link object the key comes first and the other fields by name |
| ShapeRules.InlineShape | src/simulation_harness/skills/generation/stages/analyze/identity.py:631-651 | All other object elements are kept inline with all their fields, and point at an entity exactly if their only candidate key names one other than the holder's |
| ShapeRules.ScalarShape | src/simulation_harness/skills/generation/stages/analyze/identity.py:617-629 | Elements that are no objects have a shape exactly if they name a type |
| ShapeRules.ForeignKeyMeaning | src/simulation_harness/skills/generation/stages/analyze/identity.py:476-510 | An element refers to an entity exactly if it has one candidate key and the noun of that key is a cluster other than the parent's |
| ShapeRules.NestedInHolderMeaning | src/simulation_harness/skills/generation/stages/analyze/identity.py:544-588 | A target hangs off a holder exactly if one of its sources is a property of one of the holder's, or a container of the holder refers to its collection |
| ShapeRules.HopOutMeaning | src/simulation_harness/skills/generation/stages/analyze/identity.py:544-588 | The hop chosen for a field is the first noun, by name, that holds the target and carries the field from another source; none exactly if there is no such noun |
| ShapeRules.SiftMeaning | src/simulation_harness/skills/generation/stages/analyze/identity.py:670-681 | Left over are exactly the fields that neither the target nor any hop carries from another source, in order |
| ShapeRules.ElementFieldsMeaning | src/simulation_harness/skills/generation/stages/analyze/identity.py:452-473 | The fields of an element are its properties by name, each with its declared type, whether it is required, and its enum if it has one |
| ShapeRules.EntityHolds | src/simulation_harness/skills/generation/stages/analyze/identity.py:836-851 | A derived entity has exactly its cluster's typed fields, the shapes its containers have, and the enums with values |
| ClusterFields.FieldsAreUnion | src/simulation_harness/skills/generation/stages/analyze/identity.py:414-449 | A cluster has exactly the fields its schemas describe and knows exactly which sources described each |
| ClusterFields.CarriedMeansDescribed | src/simulation_harness/skills/generation/stages/analyze/identity.py:544-588 | A target counts as carrying a field exactly if a schema of the target other than this element describes it |
| ClusterFields.KeyOfFirst | src/simulation_harness/skills/generation/stages/analyze/identity.py:414-449 | A cluster's key is that of the first schema of its noun |
| ClusterFields.TypeOfFirst | src/simulation_harness/skills/generation/stages/analyze/identity.py:414-449 | A field has the type that the first schema of its noun to describe it declares; an untyped one is an object if it has properties and else a string |
| ClusterFields.ContainerOfFirst | src/simulation_harness/skills/generation/stages/analyze/identity.py:414-449 | A container field keeps the elements of the first schema that describes it as a container, and there is none exactly if no schema does |
| EnumUnion.EnumUnionSound | src/simulation_harness/skills/generation/stages/analyze/identity.py:381-411 | A derived field has an enum exactly when some source declares one and no source makes it nullable or gives other than strings; its values are then all declared ones |
| EnumUnion.AbsorptionOrderIrrelevant | src/simulation_harness/skills/generation/stages/analyze/identity.py:390-411 | The order of the sources decides neither whether there is an enum nor its set of values |
| EnumUnion.FirstDeclaredFirst | src/simulation_harness/skills/generation/stages/analyze/identity.py:390-411 | The values of an enum come in the order in which the sources first declare them |
| EnumUnion.ElementEnumFolds | src/simulation_harness/skills/generation/stages/analyze/identity.py:414-449 | The enum of an element's field is the fold over the elements of every source, not only of the one kept |
| ElementMeaning.BlocksMeaning | src/simulation_harness/skills/generation/stages/analyze/identity.py:381-411 | A source rules an enum out exactly if it is nullable by any of the three ways or declares a value that is not a string |
| NamingProperties.KeyRules | src/simulation_harness/skills/generation/stages/analyze/identity.py:140-196 | Which undeclared key is chosen: the longest candidate naming the schema (first by name among equals), else a scalar `id`, else an only candidate, else none - in both directions |
| NamingProperties.DerivedKeyIsScalar | src/simulation_harness/skills/generation/stages/analyze/identity.py:53-77 | A key that was not declared is a single-valued property of the schema or its variants, called `id` or ending in `_id` |
| NamingProperties.SingularRoundTrip | src/simulation_harness/skills/generation/stages/analyze/identity.py:80-99 | Reducing a word to the singular is undone by pluralizing it, and never empties it |
| NamingRules.ShortestSingular | src/simulation_harness/skills/generation/stages/analyze/identity.py:80-99 | A word that is a plural, and not in -ss, -us or -is, is reduced to the shortest word that pluralizes to it |
| NamingRules.SingularizeMeaning | src/simulation_harness/skills/generation/stages/analyze/identity.py:102-121 | Only the last word of a name is reduced, and empty words are dropped |
| NamingRules.StemMeaning | src/simulation_harness/skills/generation/stages/analyze/identity.py:124-137 | A noun is a stem of a holder's name exactly if its words, in the singular, are the holder's first ones |
| NamingRules.CamelSnake | src/simulation_harness/skills/generation/stages/analyze/identity.py:27-34 | A name in camel case comes back from snake case, but for the case of its first letter |
| NamingRules.NounOfKey | src/simulation_harness/skills/generation/stages/analyze/identity.py:199-213 | The noun of a key `x_id` is `x`, whatever the schema is called |
| NamingRules.NounOfOther | src/simulation_harness/skills/generation/stages/analyze/identity.py:199-213 | Of the bare `id` it is the singular of the schema's name, of any other key the key itself |
| NamingRules.ScalarMeaning | src/simulation_harness/skills/generation/stages/analyze/identity.py:53-77 | A property is ruled out as a key exactly if its type is or lists array or object, or it has a schema for items or properties |
| NamingProperties.SnakeFixpoint | src/simulation_harness/skills/generation/stages/analyze/identity.py:27-29 | No capital survives, and names without capitals pass through |
| NamingProperties.SnakeDecodes | src/simulation_harness/skills/generation/stages/analyze/identity.py:27-29 | An underscore stands exactly before each capital but a leading one: reading it back gives the name, but for the case of its first letter |
| NamingProperties.UnionMeaning | src/simulation_harness/skills/generation/stages/analyze/identity.py:309-334 | A flattened union has exactly the properties of some variant and requires exactly what every variant requires |
| NamingProperties.UnionFolds | src/simulation_harness/skills/generation/stages/analyze/identity.py:309-334 | Each property of a flattened union is the fold of the variants' descriptions of it, in order |
| NamingProperties.DiscriminatorFolds | src/simulation_harness/skills/generation/stages/analyze/identity.py:283-306 | If every variant gives a property a constant, the union gives it all the constants in order of first appearance, as an enum if there is more than one |
| Merge.ComposeDataModel | src/simulation_harness/skills/generation/stages/analyze/merge.py:215-307 | The three sources are assembled into the specified model, metadata and provenance |
| Merge.SurvivingFallbackEntities | src/simulation_harness/skills/generation/stages/analyze/merge.py:92-176 | The filtering loop and the two counting passes keep exactly the survivors |
| MergeProperties.SurvivorsApart | src/simulation_harness/skills/generation/stages/analyze/merge.py:92-176 | No survivor collides with a derived collection or name, and no two with each other |
| SurvivorRules.SurvivesExactly | src/simulation_harness/skills/generation/stages/analyze/merge.py:92-176 | A candidate survives exactly if its keys are not reserved, no other unreserved candidate has its collection key, and none that passes both tests has its name key |
| SurvivorRules.KeyIgnores | src/simulation_harness/skills/generation/stages/analyze/merge.py:81-89 | Two names that differ only in case and in blanks around them have the same key |
| SurvivorRules.SurvivorComposed | src/simulation_harness/skills/generation/stages/analyze/merge.py:215-307 | A surviving entity is in the composed model and its collection in the contract |
| SurvivorRules.ComposedOf | src/simulation_harness/skills/generation/stages/analyze/merge.py:215-307 | The composed entities are exactly the derived ones, with what enrichment may change, and the surviving candidates |
| SurvivorRules.SoftContent | src/simulation_harness/skills/generation/stages/analyze/merge.py:244-271 | An enriched entity of a derived one's name contributes the fields and relationships, never the name, collection or key; without one the derived fields stand |
| SurvivorRules.ProvenanceOf | src/simulation_harness/skills/generation/stages/analyze/merge.py:272-289 | The provenance names exactly the composed entities: survivors as the LLM's, all others as derived |
| SurvivorRules.FieldsPinned | src/simulation_harness/skills/generation/stages/analyze/merge.py:179-212 | A field of a derived entity has a shape exactly if one was derived under its name, and the derived values where there are any, whatever enrichment wrote |
| SurvivorRules.EnumMapIs | src/simulation_harness/skills/generation/stages/analyze/merge.py:298-302 | The contract lists enums for a collection exactly if its derived entity has any, and then those |
| MergeProperties.FallbackOrderIrrelevant | src/simulation_harness/skills/generation/stages/analyze/merge.py:272-307 | Permuting the fallback's entities changes nothing: not the entity list, not the metadata, not the provenance |
| MergeProperties.EnrichmentIrrelevant | src/simulation_harness/skills/generation/stages/analyze/merge.py:272-307 | Any two enrichments give the same collections, key map, enum map and provenance, and entities that agree on all contract parts |
| MergeProperties.DerivedFieldsPinned | src/simulation_harness/skills/generation/stages/analyze/merge.py:179-212 | Every field of a derived entity carries exactly the derived element shape of its name or none, and the derived enum where there is one |
| MergeProperties.OneKeyPerEntity | src/simulation_harness/skills/generation/stages/analyze/merge.py:278-303 | After composition the key map has exactly one item per entity, holding that entity's own key |
| Sessions.AdmissionSafe | src/simulation_harness/core/simulation_instance.py:100-225 | In every interleaving the queue depth is the number of admitted unreleased calls and within its bound, the counter is the successes since the last reset, and counter plus executing calls stay below message limit plus queue bound |
| Sessions.SerialisedExactly | src/simulation_harness/core/simulation_instance.py:113-121 | Calls are serialised, in every interleaving, if and only if the queue bound is one |
| Sessions.TwoAtOnce | src/simulation_harness/core/simulation_instance.py:113-174 | For any larger bound, a run in which two calls execute at once, each admitted and checked in one go |
| Sessions.LimitKeptExactly | src/simulation_harness/core/simulation_instance.py:181-193 | The counter stays within the message limit, in every interleaving, if and only if the queue bound is one |
| Sessions.BoundAttained | src/simulation_harness/core/simulation_instance.py:147-154 | A run in which the counter reaches message limit - 1 + queue bound, so the bound is sharp |
| SessionExpiry.ExpiryExactly | src/simulation_harness/core/simulation_instance.py:181-203 | After every run, checking an admitted call expires the session exactly if the successes since the last reset have reached the limit or the time since the last activity exceeds the idle timeout; an expired session starts over, any other executes the call |
| SessionExpiry.AdmissionExactly | src/simulation_harness/core/simulation_instance.py:114-120 | After every run, a new call is admitted exactly while fewer calls are outstanding than the queue holds, and else refused without any change |
| SessionExpiry.CallGoesOn | src/simulation_harness/core/simulation_instance.py:146-179 | An outstanding call responds exactly after it was let through, and is released exactly after its response; only a success counts and restarts the timer |
| Sessions.NoCallSpansReplacement | src/simulation_harness/core/simulation_host.py:315-344 | The database is replaced only while no admitted call is outstanding |
| Sessions.CacheCoherent | src/simulation_harness/core/simulation_host.py:315-344 | In every run each cached store is a run of store operations from the current `db.json`, whose rows are all valid if those of the first one are |
| Sessions.CachedRowsValid | src/simulation_harness/state/registry.py:29-76 | So a valid first `db.json` keeps every row of every cached store valid, whatever interleaves |
| Sessions.SimulationInstance.AdmitCall | src/simulation_harness/core/simulation_instance.py:113-121 | Admission under the lock: the depth check and the increment as one step |
| Sessions.SimulationInstance.CheckCall | src/simulation_harness/core/simulation_instance.py:123-203 | The expiry check; on expiry the session is cleared and every cached store dropped |
| Sessions.SimulationInstance.RespondCall | src/simulation_harness/core/simulation_instance.py:147-174 | The step after the agent returned: only a success is counted |
| Sessions.SimulationInstance.ReleaseCall | src/simulation_harness/core/simulation_instance.py:176-179 | Every admitted call gives its place in the queue back |
| Sessions.SimulationInstance.ResetSession | src/simulation_harness/core/simulation_instance.py:220-225 | A reset clears the counter, drops every cached store and leaves the queue depth |
| Lifecycle.RecordSafe | src/simulation_harness/core/simulation_record.py:27-126 | Whatever is done to a record in whatever order, the instance is set exactly when it is ready and the error exactly when it failed, and its status changes at most four times |
| Lifecycle.SimulationRecord.Transition | src/simulation_harness/core/simulation_record.py:86-100 | A transition succeeds exactly along the status graph and otherwise changes nothing |
| Lifecycle.SimulationRecord.Perform | src/simulation_harness/core/simulation_record.py:102-126 | The marking methods, including what remains when one raises halfway |
| Lifecycle.SimulationCreator.Run | src/simulation_harness/core/simulation_creator.py:54-152 | The creator's run and pipeline do to the record what the specification of a run says, for every kind of exception of every call into the surroundings |
| Lifecycle.AloneSettles | src/simulation_harness/core/simulation_creator.py:54-152 | For every flag combination and failure point, a creator alone on its record ends ready, generated (only with start off) or failed; failed exactly when something failed, with the code of the first failure: by kind for timeouts, else by phase |
| Lifecycle.StretchConsistent | src/simulation_harness/core/simulation_creator.py:113-152 | Even a creator that competes for its record leaves it consistent |
| Hosting.SimulationHost.DeclareSimulation | src/simulation_harness/core/simulation_host.py:65-104 | Accepted exactly when the slot is empty; takes it and launches a creator |
| Hosting.SimulationHost.SetupSimulation | src/simulation_harness/core/simulation_host.py:143-175 | Accepted exactly when the slot is empty; launches a creator that does not start |
| Hosting.SimulationHost.StartSimulation | src/simulation_harness/core/simulation_host.py:177-228 | Accepted exactly when the artifacts are complete and readable and the slot is empty or holds a generated record of that name |
| Hosting.SimulationHost.DeleteSimulation | src/simulation_harness/core/simulation_host.py:285-313 | Empties the slot and cancels the creator the host knows, if it still runs |
| HostingRuns.RequestLaunches | src/simulation_harness/core/simulation_host.py:65-228 | On an empty slot a declare launches a generating and starting creator with the given port and `regenerate`, a setup one that does not start, a start one that does not generate |
| HostingRuns.DeclareSucceeds | src/simulation_harness/core/simulation_host.py:65-141 | After any run that left the slot empty, a declare whose steps succeed ends with its record ready and its creator at the sidecar exactly if a port was given |
| HostingRuns.SetupSucceeds | src/simulation_harness/core/simulation_host.py:143-175 | A setup whose steps succeed ends with its record generated and its creator finished |
| HostingRuns.StartSucceeds | src/simulation_harness/core/simulation_host.py:177-228 | A start on an empty slot whose steps succeed ends like a declare |
| HostingRuns.StartConsumes | src/simulation_harness/core/simulation_host.py:177-228 | A start on the generated record in the slot launches a starting creator with its port on that record |
| HostingRuns.RequestsRefused | src/simulation_harness/core/simulation_host.py:65-228 | Requests on a held slot change nothing, nor does a start without complete artifacts |
| HostingRuns.SidecarOutcome | src/simulation_harness/core/simulation_host.py:230-266 | A sidecar that comes up leaves everything as it is; one that fails leaves a failed record of the name in the slot, with the cause |
| Hosting.RecordsConsistent | src/simulation_harness/core/simulation_host.py:57-313 | In every run, guarded or not, every record ever made is consistent |
| Hosting.GuardExact | src/simulation_harness/core/simulation_host.py:199-208 | The running creator keeps its hold on the slot across a step exactly unless that step is a second start on a record whose creator still runs |
| Hosting.SlotDisplacement | src/simulation_harness/core/simulation_host.py:230-313 | Without such starts a held record leaves the slot only by delete or by its own creator's failed replacement of the same name |
| Hosting.CreatorSettles | src/simulation_harness/core/simulation_host.py:230-266 | Without such starts, a creator that got past its pipeline has left its record ready, failed, or generated with start off |
| Hosting.DeleteSilences | src/simulation_harness/core/simulation_host.py:285-313 | A delete empties the slot, and leaves no live creator exactly if none ran but the one the host knows |
| Hosting.DeletedStaysDeleted | src/simulation_harness/core/simulation_host.py:285-313 | In every run without such starts, after a delete and whatever follows it - new requests included - no step of a creator from before the delete changes the slot or any record |
| Hosting.SilencedForGood | src/simulation_harness/core/simulation_host.py:285-313 | The same for any run, if at the delete no creator ran but the one the host knew |
| Hosting.DeleteFinal | src/simulation_harness/core/simulation_host.py:230-313 | A deleted slot stays empty under every schedule of the creators left over if and only if every creator at its sidecar is the one the host would cancel |
| Hosting.LeftoverWrites | src/simulation_harness/core/simulation_host.py:230-313 | A creator from before a delete can still change the slot, whatever requests follow, if and only if the host did not know it and it is live and at its sidecar, or has a port and is past its pipeline or on a record that is not terminal |
| Hosting.RefillNeedsDoubleStart | src/simulation_harness/core/simulation_host.py:199-208 | A deleted slot refills by itself only after a second start over a running creator |
| Hosting.DoubleStartRevives | src/simulation_harness/core/simulation_host.py:199-266 | A run with a second start in which a deleted slot is filled again |
| Hosting.DoubleStartMayBeQuiet | src/simulation_harness/core/simulation_host.py:199-266 | A run with a second start after which a delete is final all the same |
| Store.SimulationStore.Reset | src/simulation_harness/state/store.py:53-66 | The store holds exactly the seed again, last row of a key winning |
| Store.SimulationStore.InsertRow | src/simulation_harness/state/store.py:174-211 | Key check, duplicate check and validation in this order; the new state or the unchanged one |
| Store.SimulationStore.UpdateRow | src/simulation_harness/state/store.py:213-246 | The patched row replaces the old one in place if it validates |
| Store.SimulationStore.DeleteRow | src/simulation_harness/state/store.py:248-270 | The row is removed and returned, or the state is unchanged |
| StoreRules.InsertExactly | src/simulation_harness/state/store.py:174-211 | Accepted exactly for a row with a key that is present, not blank and not taken, and that its schema, if there is one, accepts; the row is then the last one; else the first reason against it |
| StoreRules.UpdateExactly | src/simulation_harness/state/store.py:213-246 | Accepted exactly if there is such a row and the row with the patch's fields is valid, which then takes its place, everything else as it was |
| StoreRules.DeleteExactly | src/simulation_harness/state/store.py:248-270 | Takes exactly that row out and leaves the others in order |
| StoreRules.SeedExactly | src/simulation_harness/state/store.py:53-66 | A seeded store holds under each key the last seed row with that key, and no others |
| Store.SimulationStore.List | src/simulation_harness/state/store.py:97-149 | Filtering and one in-place stable sort per key, last key first, equal one stable sort by the lexicographic order, then cut |
| Store.SimulationStore.Count | src/simulation_harness/state/store.py:151-172 | Counts the matching rows |
| StoreProperties.ListIsStableSort | src/simulation_harness/state/store.py:97-149 | An unlimited list is a permutation of the matching rows, ordered by the first key that separates two rows in that key's direction, others in stored order |
| QueryMeaning.NumbersInOrder | src/simulation_harness/state/store.py:128-143 | Rows sorted by a numeric path come with ascending numbers, or descending if asked |
| StoreProperties.DefaultListIsSorted | src/simulation_harness/state/store.py:97-149 | Without sort keys the rows come in primary-key order, ties as stored |
| StoreProperties.LimitAndCount | src/simulation_harness/state/store.py:97-172 | A positive limit keeps a prefix, zero or none keeps all, and `count` is the unlimited length |
| StoreRules.ListFails | src/simulation_harness/state/store.py:97-149 | A list fails exactly if there is no such store, the clause cannot be evaluated on some row, some matching row lacks a sort path, or two have values that do not compare |
| StoreProperties.FilterMembers | src/simulation_harness/state/store.py:283-365 | The filtered rows are exactly the stored rows for which the clause holds |
| QueryMeaning.AllConditions | src/simulation_harness/state/store.py:283-365 | A clause holds exactly if each of its conditions does |
| QueryMeaning.PathReads | src/simulation_harness/state/store.py:367-392 | A dotted path reads one key after the other |
| QueryMeaning.NumbersCompare | src/simulation_harness/state/store.py:334-361 | On numbers the comparisons are those of the real numbers |
| QueryMeaning.StringsCompare | src/simulation_harness/state/store.py:334-361 | On strings they go by the first character that differs |
| QueryMeaning.OthersRaise | src/simulation_harness/state/store.py:334-361 | Values of different or unordered kinds cannot be compared |
| QueryMeaning.IgnoringCase | src/simulation_harness/state/store.py:320-327 | `$ieq` holds exactly for strings equal up to case |
| QueryMeaning.Membership | src/simulation_harness/state/store.py:329-332 | `$in` holds exactly for a member of a list, a key of an object or a part of a text |
| QueryMeaning.Presence | src/simulation_harness/state/store.py:308-316 | `$exists` holds exactly if the path is there or not there as asked |
| QueryMeaning.PlainEquality | src/simulation_harness/state/store.py:334-361 | A plain condition holds exactly for an equal value |
| QueryMeaning.FirstOperatorCounts | src/simulation_harness/state/store.py:318-361 | Of several operators the first the code knows decides |
| StoreProperties.ComparisonsFit | src/simulation_harness/state/store.py:283-365 | The four comparisons and equality fit together on comparable values, lists included; on others every comparison raises |
| Values.FirstDifferenceDecides | src/simulation_harness/state/store.py:334-348 | Lists compare, or raise, as their first unequal elements do; without such elements the shorter list is below |
| Values.ValueOrder | src/simulation_harness/state/store.py:128-143 | The order rows are sorted by is total and transitive on all JSON values, nested lists included |
| Values.ComparedEqual | src/simulation_harness/state/store.py:334-361 | Of comparable values exactly the equal ones tie |
| StoreProperties.RunKeepsRowsValid | src/simulation_harness/state/store.py:174-270 | From valid seed rows every row is valid after any run of inserts, updates, deletes and resets |
| StoreProperties.FailureChangesNothing | src/simulation_harness/state/store.py:174-270 | A rejected operation changes nothing, and none but a reset touches another store |
| StoreProperties.InsertThenDelete | src/simulation_harness/state/store.py:174-270 | Deleting a row just inserted restores the very same table, order included, and returns the row |
| StoreProperties.FiledUnlessKeyPatched | src/simulation_harness/state/store.py:213-246 | An accepted operation keeps rows filed under their key field exactly unless it is an update that changes that field |
| StoreProperties.KeyPatchMisfiles | src/simulation_harness/state/store.py:236-244 | A fresh store and an accepted update after which a row is filed under a key it no longer has |
| StableSort.SortTwice | src/simulation_harness/state/store.py:128-143 | Sorting by the minor and then stably by the major order is one stable sort by their lexicographic order |
| StableSort.StableSortUnique | src/simulation_harness/state/store.py:128-143 | Sortedness and tie order determine the result: any stable sort gives it |
| Registry.StoreRegistry.ForThread | src/simulation_harness/state/registry.py:29-42 | A known thread gets its store, a new one a fresh seeded store, or nothing if loading raises; other threads' stores are untouched |
| Registry.StateTool | src/simulation_harness/state/tools.py:226-291 | An insert, update or delete in the thread's store changes that thread's entry, by that operation, and no other; nothing if the store cannot be loaded |
| Registry.StoreRegistry.Reset | src/simulation_harness/state/registry.py:44-56 | Only the named thread's store goes back to its seed |
| Registry.StoreRegistry.Drop | src/simulation_harness/state/registry.py:58-70 | Only the named thread is forgotten |
| Registry.StoreRegistry.DropAll | src/simulation_harness/state/registry.py:72-76 | Every thread is forgotten |
| Batches.PlanClassifyBatches | src/simulation_harness/skills/generation/stages/analyze/classify.py:32-61 | The grouping, slicing, sorting and first-fit loops compute the plan |
| Batches.PlanConserves | src/simulation_harness/skills/generation/stages/analyze/classify.py:32-61 | No operation is lost, invented or duplicated |
| Batches.PlanWithinCap | src/simulation_harness/skills/generation/stages/analyze/classify.py:32-61 | Every batch is non-empty and within the cap |
| Batches.PlanKeepsTags | src/simulation_harness/skills/generation/stages/analyze/classify.py:32-61 | A tag that fits is one unbroken run of one batch; one that does not is cut into consecutive slices that are batches of their own |
| BatchRules.GroupMeaning | src/simulation_harness/skills/generation/stages/analyze/classify.py:39-41 | A group holds exactly the operations of its tag, in order; no tag and an empty one are the same |
| BatchRules.GroupOrder | src/simulation_harness/skills/generation/stages/analyze/classify.py:39-45 | Groups come in the order of their first operations |
| BatchRules.PlanMeaning | src/simulation_harness/skills/generation/stages/analyze/classify.py:32-61 | The plan is the slices of the oversized tags in their order, then batches made of whole groups, larger ones first |
| Batches.ChunksWithin | src/simulation_harness/skills/generation/stages/analyze/classify.py:45-50 | Slices are full but the last |
| Batches.PackedFill | src/simulation_harness/skills/generation/stages/analyze/classify.py:51-61 | k >= 2 packed batches satisfy k * (cap + 1) <= 2 * (packed operations) |
| Batches.PackedNearOptimal | src/simulation_harness/skills/generation/stages/analyze/classify.py:51-61 | Fewer than twice the batches of any packing of the same operations, even one that splits tags |
| FirstFitDecreasing.PlanNearBest | src/simulation_harness/skills/generation/stages/analyze/classify.py:51-61 | At most half as many batches again as any packing that keeps tags whole |
| OperationIds.SanitizeValid | src/simulation_harness/openapi/parser.py:25-47 | Whatever the document supplies, the result is a valid tool name |
| OperationIds.SanitizeFixpoint | src/simulation_harness/openapi/parser.py:25-47 | An id passes unchanged exactly when it is a valid tool name without a separator at either end |
| OperationRules.SanitizeMeaning | src/simulation_harness/openapi/parser.py:25-47 | An operation asks for its own id, cleaned and cut to 64 characters; where nothing is left of it, for its method and path, cleaned and cut |
| OperationRules.ReplaceMeaning | src/simulation_harness/openapi/parser.py:20-47 | Cleaning keeps valid characters and turns each run of others into one underscore |
| OperationIds.ValidIdChanged | src/simulation_harness/openapi/parser.py:25-47 | A valid id that is changed, against the docstring |
| OperationIds.CandidateInjective | src/simulation_harness/openapi/parser.py:365-382 | The numbered candidates of an id are pairwise different, so the search ends |
| OperationIds.CandidateValid | src/simulation_harness/openapi/parser.py:365-382 | A candidate is a valid tool name exactly while its suffix fits the length cap |
| OperationRules.CandidateMeaning | src/simulation_harness/openapi/parser.py:365-382 | The candidate of a number is the id, an underscore and the number, the id cut only where these would exceed 64 characters |
| OperationIds.Disambiguate | src/simulation_harness/openapi/parser.py:365-382 | The loop returns the id itself or its first free candidate, within one more try than there are used ids |
| OperationIds.ParseOperations | src/simulation_harness/openapi/parser.py:269-323 | The operations are the document's, in order, each under its disambiguated id |
| OperationRules.PathOperations | src/simulation_harness/openapi/parser.py:269-323 | A path has one operation for each of the seven methods under which it has an object, in their order |
| OperationRules.DocumentOperations | src/simulation_harness/openapi/parser.py:269-323 | A document's operations are those of its paths, path by path |
| OperationIds.IdsDistinct | src/simulation_harness/openapi/parser.py:269-323 | Ids assigned this way never collide |
| OperationIds.ParsedIdsValid | src/simulation_harness/openapi/parser.py:269-323 | For every document, all ids are valid tool names and pairwise distinct while suffixes fit |
| OperationIds.GetOperationById | src/simulation_harness/openapi/parser.py:402-414 | The loop finds the first operation with the id, or none |
| OperationIds.OwnIdFound | src/simulation_harness/openapi/parser.py:402-414 | Looking an operation up by its own id finds that operation |
| RefExpansion.ExpandPreservesMeaning | src/simulation_harness/skills/generation/stages/operations.py:45-76 | Along every path of properties and items, with references followed, the expansion and the original carry the same keywords, over cyclic documents too |
| RefExpansion.LeftoverRefs | src/simulation_harness/skills/generation/stages/operations.py:45-76 | A reference left at a walked position is unresolvable or was expanded on the way to it |
| RefExpansion.ExpandTotal | src/simulation_harness/skills/generation/stages/operations.py:45-76 | A document whose references are strings always expands |
| RefExpansion.FewerUnseen | src/simulation_harness/skills/generation/stages/operations.py:45-76 | Each followed reference leaves fewer pointers of the finite document unseen, which is why expansion ends |
| RefExpansion.ResolvedIsPointer | src/simulation_harness/openapi/parser.py:439-463 | A reference that resolves is one of the finitely many pointers into the document |
| RefExpansion.ResolvesExactly | src/simulation_harness/openapi/parser.py:439-463 | A pointer along any path of a document resolves exactly if there is an object at its end, and then to that object |
| RefExpansion.OnlyPointersResolve | src/simulation_harness/openapi/parser.py:439-463 | Nothing that is not such a pointer resolves |
| RefExpansion.ReferenceExpands | src/simulation_harness/skills/generation/stages/operations.py:45-76 | A reference to an object of the document that holds no reference is replaced by it |

## Left out

- LLM calls, prompts, retries, HTTP, MCP and sidecar transport, logging, configuration, the file system and the TypeScript client are not modelled; their results are parameters or nondeterminism.
- JSON Schema validity of a schema and of a row (`jsonschema`) is a parameter.
- Unicode: lower-casing, case folding, stripping and capitalising act on ASCII letters and blanks.
- JSON objects are maps, so the order of their keys is not observable; loops over them pick names in an arbitrary or in sorted order as the program does.
- Values are immutable: deep copies and aliasing between rows, seeds and schemas are not modelled, except for the objects listed above as classes.
- The textual form of a row key (`str` of a JSON value) is a parameter of the store.
- Several operators in one `where` condition: the program uses the first it knows, and so does the model; no law for conjunctions holds.
- Clean-up that only concerns other layers is left out: temporary publishing directories, checkpointer threads, the message texts of errors, timestamps of records, `set_phase` progress while a creator runs.
- Cancellation is raised at a task's next resumption, as `asyncio.wait_for` does in the Python 3.14 image the repository ships.
- The steps of `Sessions` and `Hosting` are at least as fine as the stretches between suspending awaits. A few split a stretch (admission and expiry check, the end of a pipeline and the sidecar), which only adds interleavings; nothing within a step is interleaved.
- Writing `db.json` is modelled as refused unless every row is accepted by its entity's schema; that validation against the whole schema says so is an assumption.
- Lists under `enum`, `required` or `type` that hold other than strings are read leniently where the program would raise a type error deep inside a comparison.
- ElementShapes.NormalisationSound: covers derived entities only; shapes that an LLM writes on a fallback entity are not pinned by the program and may dangle.
- OperationIds.ParsedIdsValid: bounds the number of operations so that suffixes stay shorter than the 64 characters; beyond that a suffix alone exceeds the cap.
- Batches.PlanClassifyBatches: the cap is at least one, as the configuration demands.
- Hosting.SimulationHost.DeleteSimulation: the request's waits - for the cancelled task to unwind, for the instance to shut down - come after the slot is cleared and touch neither slot nor records; they are not steps of the model.
- Sessions.SimulationInstance.ResetSession: of the agent's reset only the dropped stores are modelled, not its conversation memory; an instance without a skill directory, which has no stores, is not modelled.
- Out of scope: `validate_coverage`, `build_spec_model`, `plan_chunks`, `unknown_store_references`, `_linked_entities`, parameter merging, `validate_schema` without a model, the loader's check for missing stores, eviction policy of sessions.
