/**
 * Where lib/read-only.js attaches the read-only check when a model with the
 * mixin is attached: nine native remote methods of the model itself, the
 * nested `__updateById__` method for each `has*` relation (checked against
 * the related model), and, for each `belongs*` relation, the nested
 * `__create__` and `__updateById__` methods of the related model's relation
 * pointing back (checked against this model).
 */
module ReadOnlyHooks {
  import opened Js
  import opened LoopBack
  import opened ReadOnly

  /** The native remote methods the check is registered on. */
  const NativeMethods: seq<string> := [
    "create", "upsert", "replaceOrCreate", "patchOrCreate",
    "prototype.updateAttributes", "prototype.patchAttributes",
    "updateAll", "upsertWithWhere", "replaceById"
  ]

  /** The nested remote method names LoopBack gives a relation. */
  function UpdateByIdMethod(relationName: string): string {
    "prototype.__updateById__" + relationName
  }

  function CreateMethod(relationName: string): string {
    "prototype.__create__" + relationName
  }

  /** The native registrations: each native method, checked against the
      model's own name. */
  function NativeHooks(modelName: string): seq<Hook> {
    seq(|NativeMethods|, i requires 0 <= i < |NativeMethods| => Hook(modelName, NativeMethods[i], modelName))
  }

  /** `Object.keys(relations).find(name => relations[name].model === modelName)`:
      the name of the first relation that points at `modelName`, whatever its type. */
  function FindBackRelation(relations: seq<Relation>, modelName: string): (found: Option<string>)
    ensures found.None? <==> forall r :: r in relations ==> r.model != modelName
    ensures found.Some? ==>
      exists i :: 0 <= i < |relations| && relations[i].name == found.value &&
        relations[i].model == modelName &&
        forall j :: 0 <= j < i ==> relations[j].model != modelName
  {
    if relations == [] then None
    else if relations[0].model == modelName then Some(relations[0].name)
    else
      var rest := FindBackRelation(relations[1..], modelName);
      assert forall r :: r in relations ==> r == relations[0] || r in relations[1..];
      if rest.Some? then
        ghost var i :| 0 <= i < |relations[1..]| && relations[1..][i].name == rest.value &&
          relations[1..][i].model == modelName &&
          forall j :: 0 <= j < i ==> relations[1..][j].model != modelName;
        assert relations[i + 1].name == rest.value;
        assert forall j :: 1 <= j < i + 1 ==> relations[j].model != modelName by {
          forall j | 1 <= j < i + 1 ensures relations[j].model != modelName {
            assert relations[j] == relations[1..][j - 1];
          }
        }
        rest
      else
        rest
  }

  /** `affectedRelName` when the `if (affectedRelName)` test passes: the
      back-pointing relation of the related model, unless there is none or
      its name is the empty string. */
  function ReciprocalName(app: App, modelName: string, relation: Relation): Option<string>
    requires relation.model in app
  {
    var found := FindBackRelation(app[relation.model].relations, modelName);
    if found.Some? && Truthy(Str(found.value)) then found else None
  }

  /** The registrations one relation of model `modelName` yields. */
  function HooksFor(app: App, modelName: string, relation: Relation): seq<Hook>
    requires relation.model in app
  {
    (if StartsWith(relation.relType, "has")
     then [Hook(modelName, UpdateByIdMethod(relation.name), relation.model)]
     else [])
    +
    (if StartsWith(relation.relType, "belongs")
     then match ReciprocalName(app, modelName, relation)
          case Some(name) =>
            [Hook(relation.model, CreateMethod(name), modelName),
             Hook(relation.model, UpdateByIdMethod(name), modelName)]
          case None => []
     else [])
  }

  /** The registrations the relations yield, in order. */
  function RelationHooks(app: App, modelName: string, relations: seq<Relation>): seq<Hook>
    requires forall r :: r in relations ==> r.model in app
    decreases |relations|
  {
    if relations == [] then []
    else
      RelationHooks(app, modelName, relations[..|relations| - 1])
      + HooksFor(app, modelName, relations[|relations| - 1])
  }

  /** Every registration attaching the mixin to `modelName` makes. */
  function HookTable(app: App, modelName: string): seq<Hook>
    requires modelName in app
    requires forall r :: r in app[modelName].relations ==> r.model in app
  {
    NativeHooks(modelName) + RelationHooks(app, modelName, app[modelName].relations)
  }

  /** What the handler of `hook` does with a present body: the check of the
      hook's target model, or nothing when that model has no
      `stripReadOnlyProperties`. */
  function HookEffect(app: App, hook: Hook, body: Fields, args: Fields, db: Db): Effect
    requires hook.target in app
  {
    match app[hook.target].readOnly
    case Some(options) =>
      StripEffect(hook.target, options, app[hook.target].idName, body, args, db)
    case None => Effect(Continue, None, body)
  }

  /** The `Model.on('attached')` handler's registrations (lib/read-only.js:67-146). */
  method AttachReadOnlyMixin(app: App, modelName: string, remote: RemoteHooks)
    requires HasMixin(app, modelName)
    requires forall r :: r in app[modelName].relations ==> r.model in app
    modifies remote
    ensures remote.registered == old(remote.registered) + HookTable(app, modelName)
  {
    AttachNativeHooks(modelName, remote);

    // Updates via relationships.
    var relations := app[modelName].relations;
    var i := 0;
    while i < |relations|
      invariant 0 <= i <= |relations|
      invariant remote.registered ==
        old(remote.registered) + NativeHooks(modelName) + RelationHooks(app, modelName, relations[..i])
    {
      ghost var done := remote.registered;
      assert relations[i] in relations;
      AttachRelationHooks(app, modelName, relations[i], remote);
      RelationHooksStep(app, modelName, relations, i);
      assert remote.registered == done + HooksFor(app, modelName, relations[i]);
      i := i + 1;
    }
    assert relations[..i] == relations;
  }

  /** Unfolding `RelationHooks` by one more relation. */
  lemma RelationHooksStep(app: App, modelName: string, relations: seq<Relation>, i: nat)
    requires i < |relations|
    requires forall r :: r in relations ==> r.model in app
    ensures forall r :: r in relations[..i + 1] ==> r.model in app
    ensures RelationHooks(app, modelName, relations[..i + 1]) ==
      RelationHooks(app, modelName, relations[..i]) + HooksFor(app, modelName, relations[i])
  {
    assert relations[..i + 1][..i] == relations[..i];
  }

  /** The nine `Model.beforeRemote` calls for the native methods. */
  method AttachNativeHooks(modelName: string, remote: RemoteHooks)
    modifies remote
    ensures remote.registered == old(remote.registered) + NativeHooks(modelName)
  {
    remote.BeforeRemote(modelName, "create", modelName);
    remote.BeforeRemote(modelName, "upsert", modelName);
    remote.BeforeRemote(modelName, "replaceOrCreate", modelName);
    remote.BeforeRemote(modelName, "patchOrCreate", modelName);
    remote.BeforeRemote(modelName, "prototype.updateAttributes", modelName);
    remote.BeforeRemote(modelName, "prototype.patchAttributes", modelName);
    remote.BeforeRemote(modelName, "updateAll", modelName);
    remote.BeforeRemote(modelName, "upsertWithWhere", modelName);
    remote.BeforeRemote(modelName, "replaceById", modelName);
  }

  /** One turn of the loop over `Model.definition.settings.relations`. */
  method AttachRelationHooks(app: App, modelName: string, relation: Relation, remote: RemoteHooks)
    requires relation.model in app
    modifies remote
    ensures remote.registered == old(remote.registered) + HooksFor(app, modelName, relation)
  {
    var relatedModel := relation.model;
    if StartsWith(relation.relType, "has") {
      remote.BeforeRemote(modelName, UpdateByIdMethod(relation.name), relatedModel);
    }
    if StartsWith(relation.relType, "belongs") {
      var affectedRelName := FindBackRelation(app[relatedModel].relations, modelName);
      if affectedRelName.Some? && Truthy(Str(affectedRelName.value)) {
        remote.BeforeRemote(relatedModel, CreateMethod(affectedRelName.value), modelName);
        remote.BeforeRemote(relatedModel, UpdateByIdMethod(affectedRelName.value), modelName);
      }
    }
  }

  /** A registered handler running before its remote method. */
  method RunHook(app: App, hook: Hook, body: Body?, args: Fields, db: Db)
    returns (next: Next, lookup: Option<Value>)
    requires hook.target in app
    modifies body
    ensures body == null ==> next == Continue && lookup == None
    ensures body != null ==>
      var e := HookEffect(app, hook, old(body.fields), args, db);
      next == e.next && lookup == e.lookup && body.fields == e.body
  {
    if app[hook.target].readOnly.Some? {
      next, lookup := StripReadOnlyProperties(app, hook.target, body, args, db);
    } else {
      next, lookup := Continue, None;
    }
  }

  /** The native registrations are exactly the nine native methods of the
      model, each checked against the model itself. */
  lemma NativeHooksAreOwnChecks(modelName: string, hook: Hook)
    ensures hook in NativeHooks(modelName) <==>
      hook.host == modelName && hook.target == modelName && hook.remoteMethod in NativeMethods
  {
    if hook.host == modelName && hook.target == modelName && hook.remoteMethod in NativeMethods {
      var i :| 0 <= i < |NativeMethods| && NativeMethods[i] == hook.remoteMethod;
      assert NativeHooks(modelName)[i] == hook;
    }
  }

  /** A native handler applies the model's own ReadOnly option and id name. */
  lemma NativeHookAppliesOwnPolicy(app: App, modelName: string, hook: Hook, body: Fields, args: Fields, db: Db)
    requires HasMixin(app, modelName)
    requires hook in NativeHooks(modelName)
    ensures hook.target in app
    ensures HookEffect(app, hook, body, args, db) ==
      StripEffect(modelName, app[modelName].readOnly.value, app[modelName].idName, body, args, db)
  {
  }

  /** A `has*` relation yields exactly one registration: its nested
      `__updateById__` method on this model, checked against the related model. */
  lemma HasRelationHooks(app: App, modelName: string, relation: Relation)
    requires relation.model in app
    requires StartsWith(relation.relType, "has")
    ensures HooksFor(app, modelName, relation) ==
      [Hook(modelName, UpdateByIdMethod(relation.name), relation.model)]
  {
    assert relation.relType[0] == 'h';
    assert !StartsWith(relation.relType, "belongs");
  }

  /** A `belongs*` relation yields the nested `__create__` and
      `__updateById__` methods of the related model's first relation pointing
      back at this model, both checked against this model. It yields nothing
      when there is no such relation, and nothing when the first one is named
      `""`, even if a later back-pointing relation has a name. */
  lemma BelongsRelationHooks(app: App, modelName: string, relation: Relation)
    requires relation.model in app
    requires StartsWith(relation.relType, "belongs")
    ensures var back := app[relation.model].relations;
      var hooks := HooksFor(app, modelName, relation);
      ((forall r :: r in back ==> r.model != modelName) ==> hooks == []) &&
      (forall i :: 0 <= i < |back| && back[i].model == modelName &&
                   (forall j :: 0 <= j < i ==> back[j].model != modelName) ==>
         hooks == if back[i].name == "" then []
                  else [Hook(relation.model, CreateMethod(back[i].name), modelName),
                        Hook(relation.model, UpdateByIdMethod(back[i].name), modelName)])
  {
    assert relation.relType[0] == 'b';
    assert !StartsWith(relation.relType, "has");
    var back := app[relation.model].relations;
    var found := FindBackRelation(back, modelName);
    forall i | 0 <= i < |back| && back[i].model == modelName &&
               (forall j :: 0 <= j < i ==> back[j].model != modelName)
      ensures found == Some(back[i].name)
    {
      assert back[i] in back;
      var i' :| 0 <= i' < |back| && back[i'].name == found.value && back[i'].model == modelName &&
        forall j :: 0 <= j < i' ==> back[j].model != modelName;
      assert i' == i;
    }
  }

  /** A relation whose type starts with neither `has` nor `belongs`
      (`embedsMany`, `referencesMany`, ...) yields nothing. */
  lemma OtherRelationsYieldNothing(app: App, modelName: string, relation: Relation)
    requires relation.model in app
    requires !StartsWith(relation.relType, "has") && !StartsWith(relation.relType, "belongs")
    ensures HooksFor(app, modelName, relation) == []
  {
  }

  /** The relation registrations are exactly those of the individual relations. */
  lemma {:induction false} RelationHooksCollect(app: App, modelName: string, relations: seq<Relation>, hook: Hook)
    requires forall r :: r in relations ==> r.model in app
    ensures hook in RelationHooks(app, modelName, relations) <==>
      exists r :: r in relations && hook in HooksFor(app, modelName, r)
    decreases |relations|
  {
    if relations != [] {
      var init, last := relations[..|relations| - 1], relations[|relations| - 1];
      assert relations == init + [last];
      assert forall r :: r in relations <==> r in init || r == last;
      RelationHooksCollect(app, modelName, init, hook);
    }
  }

  /** A handler whose target model has no `stripReadOnlyProperties` passes
      the request through untouched. */
  lemma HookWithoutMixinPassesThrough(app: App, hook: Hook, body: Fields, args: Fields, db: Db)
    requires hook.target in app && !HasMixin(app, hook.target)
    ensures HookEffect(app, hook, body, args, db) == Effect(Continue, None, body)
  {
  }

  /** The nested update through a `has*` relation runs the child model's
      check: its handler targets the related model, so, given the same
      `ctx.args`, it acts as the child's own `prototype.updateAttributes`
      handler does. Which arguments LoopBack puts in `ctx.args` for each
      remote method is taken as given, not modelled. */
  lemma HasHookActsAsDirectUpdate(app: App, modelName: string, relation: Relation,
                                  body: Fields, args: Fields, db: Db)
    requires relation.model in app
    requires StartsWith(relation.relType, "has")
    ensures var nested := HooksFor(app, modelName, relation)[0];
      nested.host == modelName && nested.target == relation.model &&
      HookEffect(app, nested, body, args, db) ==
      HookEffect(app, Hook(relation.model, "prototype.updateAttributes", relation.model), body, args, db)
  {
  }
}
