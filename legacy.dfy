/**
 * The legacy mixin of index.js: the same filter without any storage lookup.
 * Before `create`, `upsert`, `prototype.updateAttributes` and `updateAll`, the
 * request body either passes through (no body), loses every key of the
 * mixin's option object, or the write is rejected with a 403 error when the
 * option object has no keys.
 */
module Legacy {
  import opened Js
  import opened LoopBack
  import ReadOnly
  import ReadOnlyHooks

  /** The remote methods the legacy check is registered on. */
  const LegacyMethods: seq<string> := ["create", "upsert", "prototype.updateAttributes", "updateAll"]

  /** The error `next` receives for a model whose option has no keys. */
  function LegacyError(modelName: string): HttpError {
    HttpError(403, "Unable to update: " + modelName + " is readonly.")
  }

  /** What one legacy run does when the request has a body. */
  datatype Outcome = Outcome(next: Next, body: Fields)

  /** The legacy check of model `modelName` with mixin options `options` on a present body. */
  function LegacyStripEffect(modelName: string, options: ReadOnlyOption, body: Fields): Outcome {
    var keys := ObjectKeys(options);
    if |keys| > 0 then Outcome(Continue, Deleted(keys, body))
    else Outcome(Abort(LegacyError(modelName)), body)
  }

  /** `Model.stripReadOnlyProperties(ctx, modelInstance, next)` of index.js,
      where `options` is the option object the mixin was given and `body` is
      `ctx.req.body` (null when the request has none). Returns the argument
      given to `next`. */
  method LegacyStripReadOnlyProperties(modelName: string, options: ReadOnlyOption, body: Body?)
    returns (next: Next)
    modifies body
    ensures body == null ==> next == Continue
    ensures body != null ==>
      var o := LegacyStripEffect(modelName, options, old(body.fields));
      next == o.next && body.fields == o.body
  {
    if body == null {
      return Continue;
    }
    var keys := ObjectKeys(options);
    if |keys| > 0 {
      var i := 0;
      while i < |keys|
        invariant 0 <= i <= |keys|
        invariant body.fields == Deleted(keys[..i], old(body.fields))
      {
        assert keys[..i + 1][..i] == keys[..i];
        body.fields := body.fields - {keys[i]};
        i := i + 1;
      }
      assert keys[..i] == keys;
      return Continue;
    } else {
      return Abort(LegacyError(modelName));
    }
  }

  /** The legacy registrations: each legacy method, checked with the
      model's own options. */
  function LegacyHooks(modelName: string): seq<Hook> {
    seq(|LegacyMethods|, i requires 0 <= i < |LegacyMethods| => Hook(modelName, LegacyMethods[i], modelName))
  }

  /** The four `Model.beforeRemote` calls of index.js. */
  method AttachLegacyMixin(modelName: string, remote: RemoteHooks)
    modifies remote
    ensures remote.registered == old(remote.registered) + LegacyHooks(modelName)
  {
    remote.BeforeRemote(modelName, "create", modelName);
    remote.BeforeRemote(modelName, "upsert", modelName);
    remote.BeforeRemote(modelName, "prototype.updateAttributes", modelName);
    remote.BeforeRemote(modelName, "updateAll", modelName);
  }

  /** An option without keys rejects with a 403 error naming the model and
      leaves the body as it was; an option with keys never rejects, and then
      every key of it is gone from the body and every other property keeps
      its value. */
  lemma LegacyDeletesOrRejects(modelName: string, options: ReadOnlyOption, body: Fields)
    ensures var o := LegacyStripEffect(modelName, options, body);
      (o.next.Abort? <==> forall k :: !ReadOnly.Protected(options, k)) &&
      (o.next.Abort? ==>
         o.next.error.statusCode == 403 &&
         o.next.error.message == "Unable to update: " + modelName + " is readonly." &&
         o.body == body) &&
      (o.next == Continue ==>
         (forall k :: ReadOnly.Protected(options, k) ==> k !in o.body) &&
         (forall k :: !ReadOnly.Protected(options, k) ==> (k in o.body <==> k in body)) &&
         (forall k :: k in body && !ReadOnly.Protected(options, k) ==> o.body[k] == body[k]))
  {
    var keys := ObjectKeys(options);
    if |keys| > 0 {
      assert ReadOnly.Protected(options, keys[0]);
    }
  }

  /** Running the legacy check a second time on its own output changes nothing. */
  lemma LegacyIdempotent(modelName: string, options: ReadOnlyOption, body: Fields)
    ensures var once := LegacyStripEffect(modelName, options, body);
      LegacyStripEffect(modelName, options, once.body) == once
  {
  }

  /** Without a truthy instance id, the current check and the legacy check
      leave the same body and reject the same requests, with messages that
      differ ("read only" against "readonly"). */
  lemma LegacyMatchesCurrentWithoutId(modelName: string, options: ReadOnlyOption, idName: string,
                                      body: Fields, args: Fields, db: Db)
    requires !Truthy(Get(args, idName))
    ensures var current := ReadOnly.StripEffect(modelName, options, idName, body, args, db);
      var legacy := LegacyStripEffect(modelName, options, body);
      legacy.body == current.body &&
      (legacy.next.Abort? <==> current.next.Abort?) &&
      (legacy.next.Abort? ==> legacy.next.error.message != current.next.error.message)
  {
  }

  /** The four legacy remote method names are among the current engine's
      nine native ones, on the same host and target model. A `Hook` records
      only where a check is registered, not which check runs, so this says
      nothing about the legacy handler (delete only) against the current one
      (delete or restore); `LegacyMatchesCurrentWithoutId` relates those. */
  lemma LegacyHooksAmongNative(modelName: string)
    ensures |LegacyHooks(modelName)| == 4
    ensures forall h :: h in LegacyHooks(modelName) ==> h in ReadOnlyHooks.NativeHooks(modelName)
  {
    forall h | h in LegacyHooks(modelName) ensures h in ReadOnlyHooks.NativeHooks(modelName) {
      ReadOnlyHooks.NativeHooksAreOwnChecks(modelName, h);
    }
  }
}
