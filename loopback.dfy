/**
 * The parts of the LoopBack framework the mixin reads or calls, as data: a
 * model's settings (its ReadOnly mixin option, the name of its id property,
 * its relations), the application's model registry, the storage behind
 * `findById`, the `next` callback's argument and the registry of
 * `beforeRemote` hooks.
 */
module LoopBack {
  import opened Js

  /** The value of `settings.mixins.ReadOnly`: either `true` (the whole model
      is read only) or an object whose keys name the read-only properties. The
      values of that object (`true`, `"createOnly"`, ...) are kept but never
      read by the mixin. */
  datatype ReadOnlyOption =
    | ReadOnlyTrue
    | ReadOnlyProps(entries: seq<(string, Value)>)

  /** `Object.keys(options)`: no keys for `true`, the property names, in
      order, for an object. */
  function ObjectKeys(options: ReadOnlyOption): seq<string> {
    match options
    case ReadOnlyTrue => []
    case ReadOnlyProps(entries) => seq(|entries|, i requires 0 <= i < |entries| => entries[i].0)
  }

  /** One entry of `definition.settings.relations`: its key, its `type`
      string (`hasMany`, `belongsTo`, ...) and its `model`. */
  datatype Relation = Relation(name: string, relType: string, model: string)

  /** What the mixin reads of a registered model: the ReadOnly mixin option
      (None when the model does not use the mixin), `getIdName()` and the
      relations in key order. */
  datatype ModelDef = ModelDef(readOnly: Option<ReadOnlyOption>, idName: string, relations: seq<Relation>)

  /** `app.loopback.getModel`: registered models by name. */
  type App = map<string, ModelDef>

  /** Stored instances of one model by id, and of every model by model name. */
  type Table = map<Value, Fields>
  type Db = map<string, Table>

  /** `Model.findById(id)` as it resolves: the stored instance, or nothing. */
  function FindById(db: Db, modelName: string, id: Value): Option<Fields> {
    if modelName in db && id in db[modelName] then Some(db[modelName][id]) else None
  }

  /** The model is registered and carries the ReadOnly mixin, so that
      `stripReadOnlyProperties` is defined on it. */
  predicate HasMixin(app: App, modelName: string) {
    modelName in app && app[modelName].readOnly.Some?
  }

  /** An error carrying a `statusCode`. */
  datatype HttpError = HttpError(statusCode: int, message: string)

  /** What a hook passes to `next`: nothing (go on with the remote method) or
      an error (abort it). */
  datatype Next = Continue | Abort(error: HttpError)

  /** A `beforeRemote` registration: on `host`'s remote method
      `remoteMethod`, run the read-only check of model `target`. */
  datatype Hook = Hook(host: string, remoteMethod: string, target: string)

  /** The application's `beforeRemote` registrations, in the order they were made. */
  class RemoteHooks {
    var registered: seq<Hook>

    constructor ()
      ensures registered == []
    {
      registered := [];
    }

    /** `host.beforeRemote(remoteMethod, ...)` with a handler that runs
        `target`'s read-only check. */
    method BeforeRemote(host: string, remoteMethod: string, target: string)
      modifies this
      ensures registered == old(registered) + [Hook(host, remoteMethod, target)]
    {
      registered := registered + [Hook(host, remoteMethod, target)];
    }
  }
}
