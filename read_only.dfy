/**
 * The read-only check of lib/read-only.js: `stripReadOnlyProperties` and its
 * two helpers. Before a remote write, the request body either passes through
 * unchanged (no body), loses every protected property (no truthy instance id,
 * or no stored instance), has every protected property overwritten with the
 * stored instance's value (a truthy id of a stored instance), or the write is
 * rejected with a 403 error (the ReadOnly option names no property).
 */
module ReadOnly {
  import opened Js
  import opened LoopBack

  /** The error `next` receives for a model whose ReadOnly option has no keys. */
  function ReadOnlyError(modelName: string): HttpError {
    HttpError(403, "Unable to update: " + modelName + " is read only.")
  }

  /** What one run of the check does when the request has a body: the
      argument given to `next`, the id passed to `findById` (None when no
      lookup happens) and the body afterwards. */
  datatype Effect = Effect(next: Next, lookup: Option<Value>, body: Fields)

  /** The check of model `modelName`, whose ReadOnly option is `options` and
      whose id property is `idName`, on a present body. */
  function StripEffect(modelName: string, options: ReadOnlyOption, idName: string,
                       body: Fields, args: Fields, db: Db): Effect
  {
    var keys := ObjectKeys(options);
    if |keys| == 0 then
      Effect(Abort(ReadOnlyError(modelName)), None, body)
    else
      var instanceId := Get(args, idName);
      if !Truthy(instanceId) then
        Effect(Continue, None, Deleted(keys, body))
      else
        match FindById(db, modelName, instanceId)
        case Some(instance) => Effect(Continue, Some(instanceId), Assigned(keys, instance, body))
        case None => Effect(Continue, Some(instanceId), Deleted(keys, body))
  }

  /** `deletePropertiesFrom(properties, data)`: delete each key of the
      option object from the body. */
  method DeletePropertiesFrom(properties: ReadOnlyOption, data: Body)
    modifies data
    ensures data.fields == Deleted(ObjectKeys(properties), old(data.fields))
  {
    var keys := ObjectKeys(properties);
    var i := 0;
    while i < |keys|
      invariant 0 <= i <= |keys|
      invariant data.fields == Deleted(keys[..i], old(data.fields))
    {
      assert keys[..i + 1][..i] == keys[..i];
      data.fields := data.fields - {keys[i]};
      i := i + 1;
    }
    assert keys[..i] == keys;
  }

  /** `replacePropertiesWithValuesFrom(properties, from, to)`: for each key of
      the option object, set `to[key]` to `from[key]`. */
  method ReplacePropertiesWithValuesFrom(properties: ReadOnlyOption, from: Fields, to: Body)
    modifies to
    ensures to.fields == Assigned(ObjectKeys(properties), from, old(to.fields))
  {
    var keys := ObjectKeys(properties);
    var i := 0;
    while i < |keys|
      invariant 0 <= i <= |keys|
      invariant to.fields == Assigned(keys[..i], from, old(to.fields))
    {
      assert keys[..i + 1][..i] == keys[..i];
      var value := Get(from, keys[i]);
      to.fields := to.fields[keys[i] := value];
      i := i + 1;
    }
    assert keys[..i] == keys;
  }

  /** `Model.stripReadOnlyProperties(modelName, ctx, modelInstance, next)`:
      `body` is `ctx.req.body` (null when the request has none), `args` is
      `ctx.args`, `db` answers `findById`. Returns the argument given to
      `next` and the id looked up, if any. */
  method StripReadOnlyProperties(app: App, modelName: string, body: Body?, args: Fields, db: Db)
    returns (next: Next, lookup: Option<Value>)
    requires HasMixin(app, modelName)
    modifies body
    ensures body == null ==> next == Continue && lookup == None
    ensures body != null ==>
      var e := StripEffect(modelName, app[modelName].readOnly.value, app[modelName].idName,
                           old(body.fields), args, db);
      next == e.next && lookup == e.lookup && body.fields == e.body
  {
    if body == null {
      return Continue, None;
    }
    var affectedModel := app[modelName];
    var options := affectedModel.readOnly.value;
    var hasProperties := |ObjectKeys(options)| > 0;
    var instanceId := Get(args, affectedModel.idName);

    if hasProperties {
      // Updating an existing instance.
      if Truthy(instanceId) {
        var instance := FindById(db, modelName, instanceId);
        if instance.Some? {
          ReplacePropertiesWithValuesFrom(options, instance.value, body);
        } else {
          DeletePropertiesFrom(options, body);
        }
        return Continue, Some(instanceId);
      }
      // Creating a new instance.
      DeletePropertiesFrom(options, body);
      return Continue, None;
    }
    return Abort(ReadOnlyError(modelName)), None;
  }

  /** The protected properties of a check: the keys of its option object. */
  predicate Protected(options: ReadOnlyOption, k: string) {
    k in ObjectKeys(options)
  }

  /** A ReadOnly option without keys (`true` or `{}`) rejects every write
      that has a body with a 403 error naming the model, leaves the body as
      it was and looks nothing up; an option with keys never rejects. */
  lemma RejectsExactlyKeylessOption(modelName: string, options: ReadOnlyOption, idName: string,
                                    body: Fields, args: Fields, db: Db)
    ensures var e := StripEffect(modelName, options, idName, body, args, db);
      (e.next.Abort? <==> forall k :: !Protected(options, k)) &&
      (e.next.Abort? ==>
         e.next.error.statusCode == 403 &&
         e.next.error.message == "Unable to update: " + modelName + " is read only." &&
         e.body == body && e.lookup == None)
  {
    var keys := ObjectKeys(options);
    if |keys| > 0 {
      assert Protected(options, keys[0]);
    }
  }

  /** Without a truthy instance id (missing, `0`, `""`, `false`, `null`), no
      lookup happens, every protected property is gone from the body and
      every other property keeps its value. */
  lemma CreateDeletesProtected(modelName: string, options: ReadOnlyOption, idName: string,
                               body: Fields, args: Fields, db: Db)
    requires ObjectKeys(options) != []
    requires !Truthy(Get(args, idName))
    ensures var e := StripEffect(modelName, options, idName, body, args, db);
      e.next == Continue && e.lookup == None &&
      (forall k :: Protected(options, k) ==> k !in e.body) &&
      (forall k :: !Protected(options, k) ==> (k in e.body <==> k in body)) &&
      (forall k :: k in body && !Protected(options, k) ==> e.body[k] == body[k])
  {
  }

  /** With a truthy instance id of a stored instance, that id is looked up,
      every protected property of the body holds the stored value afterwards
      (also one the request did not submit), and every other property keeps
      its value. */
  lemma UpdateRestoresProtected(modelName: string, options: ReadOnlyOption, idName: string,
                                body: Fields, args: Fields, db: Db, instance: Fields)
    requires ObjectKeys(options) != []
    requires Truthy(Get(args, idName))
    requires FindById(db, modelName, Get(args, idName)) == Some(instance)
    ensures var e := StripEffect(modelName, options, idName, body, args, db);
      e.next == Continue && e.lookup == Some(Get(args, idName)) &&
      (forall k :: Protected(options, k) ==> k in e.body && e.body[k] == Get(instance, k)) &&
      (forall k :: !Protected(options, k) ==> (k in e.body <==> k in body)) &&
      (forall k :: k in body && !Protected(options, k) ==> e.body[k] == body[k])
  {
  }

  /** With a truthy id that finds no stored instance, the body ends as it
      would without an id at all: the protected properties are deleted. */
  lemma MissingInstanceDeletes(modelName: string, options: ReadOnlyOption, idName: string,
                               body: Fields, args: Fields, db: Db)
    requires Truthy(Get(args, idName))
    requires FindById(db, modelName, Get(args, idName)) == None
    ensures var e := StripEffect(modelName, options, idName, body, args, db);
      var withoutId := StripEffect(modelName, options, idName, body, args - {idName}, db);
      e.next == withoutId.next && e.body == withoutId.body
  {
  }

  /** Running the check a second time on the body it produced, with the same
      arguments and storage, changes nothing more. */
  lemma StripIdempotent(modelName: string, options: ReadOnlyOption, idName: string,
                        body: Fields, args: Fields, db: Db)
    ensures var once := StripEffect(modelName, options, idName, body, args, db);
      StripEffect(modelName, options, idName, once.body, args, db) == once
  {
  }

  /** The values of the option object are never read: two options with the
      same key set (`{status: true, role: "createOnly"}` and
      `{role: true, status: true}`, say) act identically on every request. */
  lemma OnlyKeySetMatters(modelName: string, options1: ReadOnlyOption, options2: ReadOnlyOption,
                          idName: string, body: Fields, args: Fields, db: Db)
    requires forall k :: Protected(options1, k) <==> Protected(options2, k)
    ensures StripEffect(modelName, options1, idName, body, args, db) ==
            StripEffect(modelName, options2, idName, body, args, db)
  {
    var keys1, keys2 := ObjectKeys(options1), ObjectKeys(options2);
    forall k ensures k in keys1 <==> k in keys2 {
      assert Protected(options1, k) <==> Protected(options2, k);
    }
    if |keys1| > 0 {
      assert keys1[0] in keys2;
    }
    if |keys2| > 0 {
      assert keys2[0] in keys1;
    }
    var found := FindById(db, modelName, Get(args, idName));
    if found.Some? {
      KeySetDecides(keys1, keys2, found.value, body);
    } else {
      KeySetDecides(keys1, keys2, body, body);
    }
  }

  /** The update of a stored `Product` (`status` read only) that submits
      `status: "disabled"` keeps the stored `status` and the submitted `name`. */
  lemma ProductUpdateKeepsStoredStatus()
    ensures var options := ReadOnlyProps([("status", Bool(true))]);
      var stored := map["name" := Str("some book"), "status" := Str("pending")];
      var e := StripEffect("product", options, "id",
                           map["name" := Str("updated name"), "status" := Str("disabled")],
                           map["id" := Num(1)], map["product" := map[Num(1) := stored]]);
      e.next == Continue && e.lookup == Some(Num(1)) &&
      e.body == map["name" := Str("updated name"), "status" := Str("pending")]
  {
  }

  /** An id of `0` is falsy: even when an instance with id 0 is stored, the
      protected property is deleted rather than restored. */
  lemma ZeroIdDeletesInsteadOfRestoring()
    ensures var options := ReadOnlyProps([("status", Bool(true))]);
      var stored := map["status" := Str("pending")];
      var e := StripEffect("product", options, "id", map["status" := Str("active")],
                           map["id" := Num(0)], map["product" := map[Num(0) := stored]]);
      e.next == Continue && e.lookup == None && e.body == map[]
  {
  }
}
