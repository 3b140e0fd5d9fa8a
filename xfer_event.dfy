/**
 * The newer snapshot's hook registry: at most one listener per event key.
 * A listener is modelled by what it does to the context's updatable fields.
 */
module XferEvent {
  import opened Http
  import opened XferContext

  const BeforeUploadPack := "before-upload-pack"
  const BeforeReceivePack := "before-receive-pack"
  const AfterMatchRouting := "after-match-routing"

  type Listener = ContextFields -> ContextFields

  /** emit as a value: the fields after the listener for `key` ran, and the step it leaves in the log. */
  function EmitResult(listeners: map<string, Listener>, key: string, f: ContextFields): (r: (ContextFields, seq<Step>))
    ensures key !in listeners ==> r == (f, [])
    ensures key in listeners ==> r == (listeners[key](f), [HookFired(key)])
  {
    if key in listeners then (listeners[key](f), [HookFired(key)]) else (f, [])
  }

  /** A later registration for the same key wins; other keys keep their listeners. */
  lemma OnOverwrites(listeners: map<string, Listener>, key: string, first: Listener, second: Listener, f: ContextFields)
    ensures EmitResult(listeners[key := first][key := second], key, f) == (second(f), [HookFired(key)])
    ensures forall k :: k != key ==> EmitResult(listeners[key := second], k, f) == EmitResult(listeners, k, f)
  {
  }

  class Event {
    var listeners: map<string, Listener>

    /** newEvent: no listeners. */
    constructor ()
      ensures listeners == map[]
    {
      listeners := map[];
    }

    /** On replaces any listener registered earlier for the same key. */
    method On(key: string, listener: Listener)
      modifies this
      ensures listeners == old(listeners)[key := listener]
    {
      listeners := listeners[key := listener];
    }

    /** Runs the listener for `key` if there is one; otherwise does nothing. */
    method Emit(key: string, ctx: Context)
      requires ctx.response.writer.Valid()
      modifies ctx, ctx.response.writer
      ensures ctx.response.writer.Valid()
      ensures ctx.Fields() == EmitResult(listeners, key, old(ctx.Fields())).0
      ensures ctx.response.writer.log == old(ctx.response.writer.log) + EmitResult(listeners, key, old(ctx.Fields())).1
      ensures ctx.response.writer.header == old(ctx.response.writer.header)
    {
      if key in listeners {
        ctx.SetFields(listeners[key](ctx.Fields()));
        ctx.response.writer.Record(HookFired(key));
      }
    }
  }
}
