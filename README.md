# loopback-ds-readonly-mixin, modelled in Dafny

The ReadOnly mixin for LoopBack models protects named properties of a model
from being set through its remote API. Before every write-style remote method,
it runs one check on the request body, a JavaScript object that it changes in
place:

- when the request has no body, it does nothing;
- when the model's `ReadOnly` option has no keys (`true` or `{}`), it rejects
  the write with an error whose `statusCode` is 403;
- otherwise the option's keys are the protected properties. When `ctx.args`
  carries a truthy instance id and `findById` finds the instance, every
  protected property of the body is overwritten with the stored value.
  Otherwise every protected property is deleted from the body.

The check is attached to nine native remote methods of the model. Relations
extend it to nested writes: a `has*` relation checks the related model on the
nested `__updateById__` method, and a `belongs*` relation checks this model on
the related model's nested `__create__` and `__updateById__` methods. The
legacy version in `index.js` only deletes or rejects, and is attached to four
methods.

Files and modules:

- `js.dfy`, module `Js`: JavaScript values, truthiness, `o[k]` reads that give
  `undefined`, the mutable `Body` object, and `Deleted` / `Assigned`. These
  two functions specify the two property loops.
- `loopback.dfy`, module `LoopBack`: the framework side, as data. It holds the
  ReadOnly option, `Object.keys`, relations, the model registry, storage
  (`findById`), the `next` argument and the `beforeRemote` registry
  `RemoteHooks`.
- `read_only.dfy`, module `ReadOnly`: the check of `lib/read-only.js`. It has
  the two helper loops, the `stripReadOnlyProperties` method and its
  specification `StripEffect`, with the lemmas about them.
- `read_only_hooks.dfy`, module `ReadOnlyHooks`: the registrations of
  `lib/read-only.js`. It covers the native table, the relation-derived hooks
  and the handler that runs a hook.
- `legacy.dfy`, module `Legacy`: the check and registrations of `index.js`.

Inputs that come from outside the mixin are parameters:

- `app` is the registry `getModel` reads.
- `args` is `ctx.args`.
- `db` is what `findById` resolves to.
- The request body is a `Body?` reference, null when the request has none.

`StripReadOnlyProperties` also returns the id it passed to `findById`, if any.
This makes "no lookup happens" a checkable statement.

Some behaviours of the code that are easy to miss:

- The option's values are never read: `role: "createOnly"` protects exactly
  like `status: true`, on creation too.
- A keyless option always rejects, on creation as on update.
- An empty object body `{}` is truthy, so it is checked. For a keyless option it
  is rejected, not passed through.
- The instance id always comes from `ctx.args[idName]`, never from the body. So
  `upsert` or `replaceOrCreate` with an id only inside the body take the
  delete path.
- The reciprocal relation of a `belongs*` relation is the first relation of the
  related model whose `model` is this model, whatever its type. When that
  relation's name is the empty string, it fails the `if (affectedRelName)`
  test and nothing is registered, even if a later relation points back too.
- Relation kinds come from `startsWith('has')` / `startsWith('belongs')` on
  the type string.

## Model

| member | source | states |
|---|---|---|
| Js.Deleted | lib/read-only.js:5-10 | after deleting the listed keys in turn, a key is present iff it was present and is not listed, and every remaining key keeps its value |
| Js.Assigned | lib/read-only.js:12-19 | after `to[k] = from[k]` for each listed key, every listed key is present with `from`'s value (undefined if `from` lacks it), other keys of `to` keep their values, and no other key appears |
| Js.DeletedIdempotent | lib/read-only.js:5-10 | deleting the same keys twice equals deleting them once |
| Js.AssignedIdempotent | lib/read-only.js:12-19 | restoring the same keys from the same instance twice equals doing it once |
| Js.KeySetDecides | lib/read-only.js:5-19 | both loops depend only on the set of keys, not on their order or repetition |
| ReadOnly.DeletePropertiesFrom | lib/read-only.js:5-10 | the body object afterwards is `Deleted(Object.keys(options), old body)` |
| ReadOnly.ReplacePropertiesWithValuesFrom | lib/read-only.js:12-19 | the body object afterwards is `Assigned(Object.keys(options), instance, old body)` |
| ReadOnly.StripReadOnlyProperties | lib/read-only.js:25-64 | no body: `next()` with no lookup and no change; otherwise `next`'s argument, the looked-up id and the new body are those of `StripEffect` for the named model's own option and id name |
| ReadOnly.RejectsExactlyKeylessOption | lib/read-only.js:35-63 | the check rejects iff the option has no keys; the rejection has statusCode 403 and message `Unable to update: <model> is read only.`, leaves the body unchanged and looks nothing up |
| ReadOnly.CreateDeletesProtected | lib/read-only.js:42-57 | without a truthy id there is no lookup, every protected key is absent afterwards, and other keys keep their presence and values |
| ReadOnly.UpdateRestoresProtected | lib/read-only.js:42-46 | with a truthy id of a stored instance, that id is looked up and every protected key holds the stored value afterwards, even if it was not submitted; other keys are unchanged |
| ReadOnly.MissingInstanceDeletes | lib/read-only.js:47-50 | a truthy id that finds no instance gives the same outcome and body as a request without the id |
| ReadOnly.StripIdempotent | lib/read-only.js:42-57 | running the check again on its own output, with the same args and storage, gives the same effect |
| ReadOnly.OnlyKeySetMatters | lib/read-only.js:35-38 | two options with the same key set act identically on every request, whatever their values (`true`, `"createOnly"`) |
| ReadOnly.ProductUpdateKeepsStoredStatus | test/test-serverjs.js:88-103 | updating a stored product with `status: "disabled"` looks up its id, keeps the new name and restores the stored status |
| ReadOnly.ZeroIdDeletesInsteadOfRestoring | lib/read-only.js:42-57 | an id of `0` is falsy: there is no lookup, and the protected key is deleted even though an instance with id 0 is stored |
| ReadOnlyHooks.FindBackRelation | lib/read-only.js:110-113 | returns nothing iff no relation points at the model; otherwise the name of the first relation whose `model` is the model |
| ReadOnlyHooks.AttachReadOnlyMixin | lib/read-only.js:66-146 | appends exactly the native registrations and then, relation by relation in order, the relation-derived registrations |
| ReadOnlyHooks.AttachNativeHooks | lib/read-only.js:67-93 | appends the nine native registrations in source order, each checked against the model itself |
| ReadOnlyHooks.AttachRelationHooks | lib/read-only.js:96-145 | appends exactly the registrations `HooksFor` gives for one relation |
| ReadOnlyHooks.RunHook | lib/read-only.js:101-107 | a handler runs the target model's check when the target has the mixin; otherwise it calls `next()` with no lookup and no change |
| ReadOnlyHooks.NativeHooksAreOwnChecks | lib/read-only.js:67-93 | a hook is a native registration iff host and target are the model itself and its method is one of the nine native methods |
| ReadOnlyHooks.NativeHookAppliesOwnPolicy | lib/read-only.js:67-93 | every native handler applies the model's own ReadOnly option and id name under the model's own name |
| ReadOnlyHooks.HasRelationHooks | lib/read-only.js:101-108 | a `has*` relation yields exactly one registration: `prototype.__updateById__<rel>` on the model, targeting the related model |
| ReadOnlyHooks.BelongsRelationHooks | lib/read-only.js:109-144 | a `belongs*` relation yields nothing when no relation of the related model points back; when the first back-pointing relation has a non-empty name it yields `__create__` and `__updateById__` of that relation, on the related model, targeting this model; when that name is empty it yields nothing, whatever later back-pointing relations are named |
| ReadOnlyHooks.OtherRelationsYieldNothing | lib/read-only.js:96-146 | a relation whose type starts with neither `has` nor `belongs` yields no registration |
| ReadOnlyHooks.RelationHooksCollect | lib/read-only.js:96-146 | a hook is among the relation registrations iff one of the model's relations yields it |
| ReadOnlyHooks.HookWithoutMixinPassesThrough | lib/read-only.js:102-107 | a handler whose target has no `stripReadOnlyProperties` continues with no lookup and no change |
| ReadOnlyHooks.HasHookActsAsDirectUpdate | lib/read-only.js:102-105 | the nested update through a `has*` relation is registered on the model and targets the related model, so given the same `ctx.args` its handler acts exactly as the child's own `prototype.updateAttributes` handler |
| Legacy.LegacyStripReadOnlyProperties | index.js:11-29 | no body: `next()` with no change; otherwise `next`'s argument and the new body are those of `LegacyStripEffect` |
| Legacy.AttachLegacyMixin | index.js:32-43 | appends exactly the four registrations create, upsert, prototype.updateAttributes and updateAll, each checked against the model itself |
| Legacy.LegacyDeletesOrRejects | index.js:16-28 | rejects iff the option has no keys, with statusCode 403, message `Unable to update: <model> is readonly.` and the body unchanged; otherwise every option key is deleted and other keys keep their values |
| Legacy.LegacyIdempotent | index.js:19-22 | running the legacy check again on its own output changes nothing |
| Legacy.LegacyMatchesCurrentWithoutId | index.js:11-29 | without a truthy id, the legacy and current checks leave the same body and reject the same requests, with different messages |
| Legacy.LegacyHooksAmongNative | index.js:32-43 | the four legacy method names are among the current engine's nine native ones, with the same host and target; a registration does not record which handler runs |

## Left out

- The LoopBack runtime is not modelled: `Model.on('attached')`, `beforeRemote` callbacks, `getModel` and model settings as live objects. Registrations are modelled as `Hook` records, and the registry as a map.
- `findById` is asynchronous in the source. The model uses the instance it resolves to, from the `db` parameter. Lookup is an exact match on the id value, so the storage layer's id coercion (`"1"` against `1`) is not modelled.
- A `findById` that rejects is not modelled. The source has no `catch`, so `next` is never called; this belongs to the storage layer.
- `getModel` and `Object.keys` throw in some cases. The model assumes, as `requires`, that the checked model is registered with the mixin's settings (`HasMixin`) and that every relation names a registered model (`relation.model` is a plain string). It does not model the exception thrown at attach time when a relation's target is not registered, or when a polymorphic `belongsTo` has no `model`.
- `debug` logging has no behavioural effect and is not modelled.
- `lib/index.js` (a deprecation wrapper around the mixin registry) is not part of this model.
- The test fixture's `server.js` (bootstrapping, HTTP listener) is not part of this model.
- HTTP status mapping and response shapes are not modelled beyond `statusCode` 403 and the message string.
- JavaScript numbers are modelled as integers, so NaN, `-0` and fractions are absent. In particular a NaN id, which is falsy, is not represented.
- Reading `instance[key]` on a model instance is modelled as an own-property read that gives `undefined` when the property is missing. Prototype members and getters are not modelled.
- The request body is modelled as a plain object. Array bodies (bulk create) are not modelled.
