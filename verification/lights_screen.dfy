/** The lights screen (src/screen/home/LucesCasa.tsx): loading the list, with
    sample data when the server gives nothing usable, and switching one light
    optimistically, then confirming or rolling back. */
module LightsScreen {
  import opened Wrappers
  import opened JsValue
  import opened Text
  import opened DeviceLists
  import Dispatcher
  import DeviceApi

  function Light(id: int, nombre: string, estado: bool): Value
  {
    Obj(map["id" := Num(id), "nombre" := Str(nombre), "estado" := Bool(estado)])
  }

  /** Shown when the server answers but without a truthy `status`. */
  const SampleLights: seq<Value> := [
    Light(1, "Luz Sala Principal", true),
    Light(2, "Luz Auxiliar Sala", false),
    Light(3, "Luz Cocina Central", true),
    Light(4, "Luz Encimera", false),
    Light(5, "Luz Principal Dormitorio", true),
    Light(6, "Luz de Noche", true),
    Light(7, "Luz Baño", false),
    Light(8, "Luz Exterior", true)
  ]

  /** Shown when loading throws. */
  const FallbackLights: seq<Value> := [
    Light(1, "Luz Sala Principal", true),
    Light(2, "Luz Cocina Principal", false)
  ]

  /** The screen after `cargarLuces`: the list and the error banner's message
      (loading and refreshing are both off again). */
  datatype Loaded = Loaded(luces: Value, error: Option<string>)

  /** A response the screen accepts: truthy, with a truthy `status`. */
  predicate Accepted(respuesta: Value)
  {
    Truthy(respuesta) && Truthy(Get(respuesta, "status"))
  }

  function CargarLuces(respuesta: Result<Value>): (s: Loaded)
    ensures s.error.Some? <==> respuesta.Failure?
    ensures respuesta.Failure? ==> s.error.value == respuesta.error && s.luces == Arr(FallbackLights)
    ensures respuesta.Success? && Accepted(respuesta.value) ==>
              (Truthy(Get(respuesta.value, "data")) ==> s.luces == Get(respuesta.value, "data"))
              && (!Truthy(Get(respuesta.value, "data")) ==> s.luces == Arr([]))
    ensures respuesta.Success? && !Accepted(respuesta.value) ==> s.luces == Arr(SampleLights)
  {
    match respuesta
    case Success(r) =>
      if Accepted(r) then Loaded(Or(Get(r, "data"), Arr([])), None)
      else Loaded(Arr(SampleLights), None)
    case Failure(m) => Loaded(Arr(FallbackLights), Some(m))
  }

  /** An array of light records, once normalised, is listed as is: one
      light per record, in order, each on iff its stored status is 1. */
  lemma ServerLightsListed(response: Value)
    requires Truthy(response) && DeviceApi.Payload(response).Arr?
    requires forall i :: 0 <= i < |DeviceApi.Payload(response).items| ==> !Nullish(DeviceApi.Payload(response).items[i])
    ensures var records := DeviceApi.Payload(response).items;
            var s := CargarLuces(DeviceApi.Normalize(DeviceApi.Lights, response));
            && s.error == None
            && s.luces.Arr? && |s.luces.items| == |records|
            && forall i :: 0 <= i < |records| ==>
                 && Get(s.luces.items[i], "id") == Get(records[i], "id")
                 && Get(s.luces.items[i], "estado") == Bool(Get(records[i], "status") == Num(1))
  {
    DeviceApi.NormalizeArray(DeviceApi.Lights, response);
    var n := DeviceApi.Normalize(DeviceApi.Lights, response);
    assert Accepted(n.value);
    if Get(n.value, "data").items == [] {
      assert CargarLuces(n).luces == Arr([]);
    }
  }

  /** End to end: when the dispatcher gets an array of light records from the
      server, the screen lists exactly those lights, in order, each on iff its
      stored status is 1; when the dispatcher fails, the screen shows the two
      fallback lights and the dispatcher's error message. */
  lemma LoadShowsServerLights(net: Dispatcher.Network, bases: seq<string>, memory: Option<string>)
    ensures var d := Dispatcher.Request(net, bases, memory, DeviceApi.AllCall(DeviceApi.Lights));
            var s := CargarLuces(DeviceApi.GetAll(net, bases, memory, DeviceApi.Lights).result);
            && (d.result.Failure? ==> s == Loaded(Arr(FallbackLights), Some(d.result.error)))
            && (d.result.Success? && Truthy(d.result.value) && DeviceApi.Payload(d.result.value).Arr? ==>
                  var records := DeviceApi.Payload(d.result.value).items;
                  (forall i :: 0 <= i < |records| ==> !Nullish(records[i])) ==>
                    && s.error == None
                    && s.luces.Arr? && |s.luces.items| == |records|
                    && forall i :: 0 <= i < |records| ==>
                         && Get(s.luces.items[i], "id") == Get(records[i], "id")
                         && Get(s.luces.items[i], "estado") == Bool(Get(records[i], "status") == Num(1)))
  {
    var d := Dispatcher.Request(net, bases, memory, DeviceApi.AllCall(DeviceApi.Lights));
    if d.result.Success? && Truthy(d.result.value) && DeviceApi.Payload(d.result.value).Arr? {
      var records := DeviceApi.Payload(d.result.value).items;
      if forall i :: 0 <= i < |records| ==> !Nullish(records[i]) {
        ServerLightsListed(d.result.value);
      }
    }
  }

  /** What one switch flip leaves behind: the optimistic list shown at once,
      the request sent, the final list, and the alert text when the request
      failed. */
  datatype Toggled = Toggled(optimistic: seq<Value>, sent: Dispatcher.ApiCall, luces: seq<Value>, alert: Option<string>)

  /** The server confirms a value: `status === true` and a `data.estado`. */
  predicate Confirms(respuesta: Value)
  {
    Truthy(respuesta) && Get(respuesta, "status") == Bool(true)
    && Truthy(Get(respuesta, "data")) && Get(Get(respuesta, "data"), "estado") != Undefined
  }

  function FailureAlert(id: int, message: string): string
  {
    "No se pudo cambiar el estado de la luz " + IntText(id) + ". " + message
  }

  /** `cambiarEstadoLuz(id, estadoActual)` on the list `luces` the handler
      closed over, given what `toggleLight` resolved or threw. Both the
      confirmation and the rollback are computed from that same list. */
  function CambiarEstadoLuz(luces: seq<Value>, id: int, estadoActual: Value, respuesta: Result<Value>): (t: Toggled)
    requires NoNullish(luces)
    ensures t.sent == DeviceApi.ToggleCall(DeviceApi.Lights, id, !Truthy(estadoActual))
    ensures SameElsewhere(luces, t.optimistic, id) && SameElsewhere(luces, t.luces, id) && NoNullish(t.luces)
    ensures forall i :: 0 <= i < |luces| && HasId(luces[i], id) ==>
              Get(t.optimistic[i], "estado") == Bool(!Truthy(estadoActual))
    ensures t.alert.Some? <==> respuesta.Failure?
    ensures respuesta.Failure? ==> t.alert.value == FailureAlert(id, respuesta.error)
  {
    var nuevo := !Truthy(estadoActual);
    var optimistic := UpdateById(luces, id, map["estado" := Bool(nuevo)]);
    var final :=
      match respuesta
      case Success(r) =>
        if Confirms(r) then UpdateById(luces, id, map["estado" := Get(Get(r, "data"), "estado")])
        else optimistic
      case Failure(_) => UpdateById(luces, id, map["estado" := estadoActual]);
    var alert := if respuesta.Failure? then Some(FailureAlert(id, respuesta.error)) else None;
    Toggled(optimistic, DeviceApi.ToggleCall(DeviceApi.Lights, id, nuevo), final, alert)
  }

  /** A failed request restores the list the user saw, provided the switch
      passed the light's own state (as the rendered switch does). */
  lemma FailureRollsBack(luces: seq<Value>, id: int, estadoActual: Value, message: string)
    requires NoNullish(luces)
    requires Holds(luces, id, map["estado" := estadoActual])
    ensures CambiarEstadoLuz(luces, id, estadoActual, Failure(message)).luces == luces
  {
    UpdateByIdNoChange(luces, id, map["estado" := estadoActual]);
  }

  /** A confirmed value replaces the optimistic one: the final list is the
      optimistic list with the server's `estado` written over it, so
      computing it from the pre-flip list loses nothing. */
  lemma ConfirmationOverridesOptimistic(luces: seq<Value>, id: int, estadoActual: Value, r: Value)
    requires NoNullish(luces)
    requires Confirms(r)
    ensures var t := CambiarEstadoLuz(luces, id, estadoActual, Success(r));
            && t.luces == UpdateById(t.optimistic, id, map["estado" := Get(Get(r, "data"), "estado")])
            && forall i :: 0 <= i < |luces| && HasId(luces[i], id) ==>
                 Get(t.luces[i], "estado") == Get(Get(r, "data"), "estado")
  {
    UpdateByIdOverwrite(luces, id, map["estado" := Bool(!Truthy(estadoActual))],
                        map["estado" := Get(Get(r, "data"), "estado")]);
  }

  /** A successful but unconfirmed answer keeps the optimistic list. */
  lemma UnconfirmedKeepsOptimistic(luces: seq<Value>, id: int, estadoActual: Value, r: Value)
    requires NoNullish(luces)
    requires !Confirms(r)
    ensures var t := CambiarEstadoLuz(luces, id, estadoActual, Success(r));
            t.luces == t.optimistic
  {
  }

  /** Flipping a light and flipping it back (both answered without a
      confirmed value) gives back the original list. */
  lemma {:induction false} FlipTwiceRestores(luces: seq<Value>, id: int, b: bool, r1: Value, r2: Value)
    requires NoNullish(luces)
    requires Holds(luces, id, map["estado" := Bool(b)])
    requires !Confirms(r1) && !Confirms(r2)
    ensures var once := CambiarEstadoLuz(luces, id, Bool(b), Success(r1)).luces;
            CambiarEstadoLuz(once, id, Bool(!b), Success(r2)).luces == luces
  {
    var first := map["estado" := Bool(!b)];
    var second := map["estado" := Bool(b)];
    UpdateByIdOverwrite(luces, id, first, second);
    UpdateByIdNoChange(luces, id, second);
  }
}
