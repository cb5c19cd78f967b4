/** The doors screen (src/screen/home/PuertaCasa.tsx): loading the list and
    opening or closing one door optimistically. The switch is on while the
    door is open, so a flip asks to close an open door and open a closed
    one. */
module DoorsScreen {
  import opened Wrappers
  import opened JsValue
  import opened Text
  import opened DeviceLists
  import Dispatcher
  import DeviceApi

  function Door(id: int, nombre: string, cerrada: bool): Value
  {
    Obj(map["id" := Num(id), "nombre" := Str(nombre), "cerrada" := Bool(cerrada)])
  }

  /** Shown when the server answers but without a truthy `status`. */
  const SampleDoors: seq<Value> := [
    Door(1, "Puerta Principal", true),
    Door(2, "Puerta Trasera", true),
    Door(3, "Garaje Principal", false),
    Door(4, "Portón Exterior", true),
    Door(5, "Puerta Dormitorio", false),
    Door(6, "Puerta Cocina", true),
    Door(7, "Puerta Baño", true),
    Door(8, "Garaje Secundario", false)
  ]

  /** Stored when loading throws. */
  const FallbackDoors: seq<Value> := [
    Door(1, "Puerta Principal", true),
    Door(2, "Puerta Trasera", true)
  ]

  /** The fixed text that replaces the thrown error's message. */
  const LoadErrorMessage: string := "Error al cargar las puertas."

  /** The screen after `cargarPuertas`: the list and the error message
      (loading and refreshing are both off again). */
  datatype Loaded = Loaded(puertas: Value, error: Option<string>)

  predicate Accepted(respuesta: Value)
  {
    Truthy(respuesta) && Truthy(Get(respuesta, "status"))
  }

  /** The second `setError` overwrites the first, so the error shown never
      depends on what was thrown. */
  function CargarPuertas(respuesta: Result<Value>): (s: Loaded)
    ensures s.error.Some? <==> respuesta.Failure?
    ensures respuesta.Failure? ==> s == Loaded(Arr(FallbackDoors), Some(LoadErrorMessage))
    ensures respuesta.Success? && Accepted(respuesta.value) ==>
              (Truthy(Get(respuesta.value, "data")) ==> s.puertas == Get(respuesta.value, "data"))
              && (!Truthy(Get(respuesta.value, "data")) ==> s.puertas == Arr([]))
    ensures respuesta.Success? && !Accepted(respuesta.value) ==> s.puertas == Arr(SampleDoors)
  {
    match respuesta
    case Success(r) =>
      if Accepted(r) then Loaded(Or(Get(r, "data"), Arr([])), None)
      else Loaded(Arr(SampleDoors), None)
    case Failure(_) => Loaded(Arr(FallbackDoors), Some(LoadErrorMessage))
  }

  /** What the screen renders below its header once loaded: the error panel
      whenever there is an error, otherwise the list. */
  datatype Shown = ErrorPanel(message: string) | DoorList(puertas: Value)

  function Render(s: Loaded): (v: Shown)
    ensures v.ErrorPanel? <==> s.error.Some?
  {
    if s.error.Some? then ErrorPanel(s.error.value) else DoorList(s.puertas)
  }

  /** An array of door records, once normalised, is listed as is: one door
      per record, in order, each closed iff its stored status is 0. */
  lemma ServerDoorsListed(response: Value)
    requires Truthy(response) && DeviceApi.Payload(response).Arr?
    requires forall i :: 0 <= i < |DeviceApi.Payload(response).items| ==> !Nullish(DeviceApi.Payload(response).items[i])
    ensures var records := DeviceApi.Payload(response).items;
            var s := CargarPuertas(DeviceApi.Normalize(DeviceApi.Doors, response));
            && Render(s).DoorList?
            && s.puertas.Arr? && |s.puertas.items| == |records|
            && forall i :: 0 <= i < |records| ==>
                 && Get(s.puertas.items[i], "id") == Get(records[i], "id")
                 && Get(s.puertas.items[i], "cerrada") == Bool(Get(records[i], "status") == Num(0))
  {
    DeviceApi.NormalizeArray(DeviceApi.Doors, response);
    var n := DeviceApi.Normalize(DeviceApi.Doors, response);
    assert Accepted(n.value);
    if Get(n.value, "data").items == [] {
      assert CargarPuertas(n).puertas == Arr([]);
    }
  }

  /** End to end: when the dispatcher fails, whatever its message, the
      screen shows the fixed load error and never the fallback doors it
      stored; when it gets an array of door records, the screen lists
      exactly those doors, closed iff their stored status is 0. */
  lemma LoadShowsServerDoors(net: Dispatcher.Network, bases: seq<string>, memory: Option<string>)
    ensures var d := Dispatcher.Request(net, bases, memory, DeviceApi.AllCall(DeviceApi.Doors));
            var s := CargarPuertas(DeviceApi.GetAll(net, bases, memory, DeviceApi.Doors).result);
            && (d.result.Failure? ==> Render(s) == ErrorPanel(LoadErrorMessage))
            && (d.result.Success? && Truthy(d.result.value) && DeviceApi.Payload(d.result.value).Arr? ==>
                  var records := DeviceApi.Payload(d.result.value).items;
                  (forall i :: 0 <= i < |records| ==> !Nullish(records[i])) ==>
                    && Render(s).DoorList?
                    && s.puertas.Arr? && |s.puertas.items| == |records|
                    && forall i :: 0 <= i < |records| ==>
                         && Get(s.puertas.items[i], "id") == Get(records[i], "id")
                         && Get(s.puertas.items[i], "cerrada") == Bool(Get(records[i], "status") == Num(0)))
  {
    var d := Dispatcher.Request(net, bases, memory, DeviceApi.AllCall(DeviceApi.Doors));
    if d.result.Success? && Truthy(d.result.value) && DeviceApi.Payload(d.result.value).Arr? {
      var records := DeviceApi.Payload(d.result.value).items;
      if forall i :: 0 <= i < |records| ==> !Nullish(records[i]) {
        ServerDoorsListed(d.result.value);
      }
    }
  }

  datatype Toggled = Toggled(optimistic: seq<Value>, sent: Dispatcher.ApiCall, puertas: seq<Value>, alert: Option<string>)

  /** The server confirms a value: `status === true` and a `data.cerrada`. */
  predicate Confirms(respuesta: Value)
  {
    Truthy(respuesta) && Get(respuesta, "status") == Bool(true)
    && Truthy(Get(respuesta, "data")) && Get(Get(respuesta, "data"), "cerrada") != Undefined
  }

  function FailureAlert(id: int, message: string): string
  {
    "No se pudo cambiar el estado de la puerta " + IntText(id) + ". " + message
  }

  /** The confirmation writes the server's `cerrada` to both `cerrada` and
      `bloqueada`. */
  function Confirmed(r: Value): map<string, Value>
  {
    var c := Get(Get(r, "data"), "cerrada");
    map["cerrada" := c, "bloqueada" := c]
  }

  /** `cambiarEstadoPuerta(id, estadoActual)` on the list the handler closed
      over, given what `toggleDoorState` resolved or threw. */
  function CambiarEstadoPuerta(puertas: seq<Value>, id: int, estadoActual: Value, respuesta: Result<Value>): (t: Toggled)
    requires NoNullish(puertas)
    ensures t.sent == DeviceApi.ToggleCall(DeviceApi.Doors, id, !Truthy(estadoActual))
    ensures SameElsewhere(puertas, t.optimistic, id) && SameElsewhere(puertas, t.puertas, id) && NoNullish(t.puertas)
    ensures forall i :: 0 <= i < |puertas| && HasId(puertas[i], id) ==>
              Get(t.optimistic[i], "cerrada") == Bool(!Truthy(estadoActual))
    ensures t.alert.Some? <==> respuesta.Failure?
    ensures respuesta.Failure? ==> t.alert.value == FailureAlert(id, respuesta.error)
  {
    var nuevo := !Truthy(estadoActual);
    var optimistic := UpdateById(puertas, id, map["cerrada" := Bool(nuevo)]);
    var final :=
      match respuesta
      case Success(r) => if Confirms(r) then UpdateById(puertas, id, Confirmed(r)) else optimistic
      case Failure(_) => UpdateById(puertas, id, map["cerrada" := estadoActual]);
    var alert := if respuesta.Failure? then Some(FailureAlert(id, respuesta.error)) else None;
    Toggled(optimistic, DeviceApi.ToggleCall(DeviceApi.Doors, id, nuevo), final, alert)
  }

  /** The rendered switch passes the door's own `cerrada`: flipping an open
      door posts status 0 (close), flipping a closed one posts status 1. */
  lemma SwitchClosesOpenDoor(id: int, cerrada: bool)
    ensures var sent := CambiarEstadoPuerta([], id, Bool(cerrada), Success(Undefined)).sent;
            Get(sent.body.value, "status") == Num(if cerrada then 1 else 0)
  {
  }

  /** A failed request restores the list the user saw, provided the switch
      passed the door's own `cerrada`. A `bloqueada` written by an earlier
      confirmation is left as it was. */
  lemma FailureRollsBack(puertas: seq<Value>, id: int, estadoActual: Value, message: string)
    requires NoNullish(puertas)
    requires Holds(puertas, id, map["cerrada" := estadoActual])
    ensures CambiarEstadoPuerta(puertas, id, estadoActual, Failure(message)).puertas == puertas
  {
    UpdateByIdNoChange(puertas, id, map["cerrada" := estadoActual]);
  }

  /** A confirmed value replaces the optimistic one, and leaves the door's
      `cerrada` and `bloqueada` equal. */
  lemma ConfirmationOverridesOptimistic(puertas: seq<Value>, id: int, estadoActual: Value, r: Value)
    requires NoNullish(puertas)
    requires Confirms(r)
    ensures var t := CambiarEstadoPuerta(puertas, id, estadoActual, Success(r));
            && t.puertas == UpdateById(t.optimistic, id, Confirmed(r))
            && forall i :: 0 <= i < |puertas| && HasId(puertas[i], id) ==>
                 && Get(t.puertas[i], "cerrada") == Get(Get(r, "data"), "cerrada")
                 && Get(t.puertas[i], "bloqueada") == Get(t.puertas[i], "cerrada")
  {
    UpdateByIdOverwrite(puertas, id, map["cerrada" := Bool(!Truthy(estadoActual))], Confirmed(r));
    var t := CambiarEstadoPuerta(puertas, id, estadoActual, Success(r));
    var c := Confirmed(r);
    forall i | 0 <= i < |puertas| && HasId(puertas[i], id)
      ensures Get(t.puertas[i], "cerrada") == Get(Get(r, "data"), "cerrada")
      ensures Get(t.puertas[i], "bloqueada") == Get(t.puertas[i], "cerrada")
    {
      var f := puertas[i].fields + c;
      assert t.puertas[i] == Obj(f);
      assert f["cerrada"] == c["cerrada"] && f["bloqueada"] == c["bloqueada"];
    }
  }

  /** Closing a door and opening it again (both answered without a
      confirmed value) gives back the original list. */
  lemma {:induction false} FlipTwiceRestores(puertas: seq<Value>, id: int, b: bool, r1: Value, r2: Value)
    requires NoNullish(puertas)
    requires Holds(puertas, id, map["cerrada" := Bool(b)])
    requires !Confirms(r1) && !Confirms(r2)
    ensures var once := CambiarEstadoPuerta(puertas, id, Bool(b), Success(r1)).puertas;
            CambiarEstadoPuerta(once, id, Bool(!b), Success(r2)).puertas == puertas
  {
    var first := map["cerrada" := Bool(!b)];
    var second := map["cerrada" := Bool(b)];
    UpdateByIdOverwrite(puertas, id, first, second);
    UpdateByIdNoChange(puertas, id, second);
  }
}
