/** The light and door calls of src/utils/api.js: response normalisation
    (`getAllLights`, `getLight`, `getAllDoors`, `getDoor`), the 0/1 status
    encodings sent by `toggleLight` and `toggleDoorState`, and the catch that
    every wrapper shares (`handleApiError`, then rethrow). */
module DeviceApi {
  import opened Wrappers
  import opened JsValue
  import opened Text
  import ApiConfig
  import Dispatcher
  import ErrorClassifier

  datatype Kind = Lights | Doors

  /** `response.body || response`: unwraps the `body` envelope when present. */
  function Payload(response: Value): (p: Value)
    ensures Truthy(Get(response, "body")) ==> p == Get(response, "body")
    ensures !Truthy(Get(response, "body")) ==> p == response
    ensures Truthy(response) ==> Truthy(p)
  {
    Or(Get(response, "body"), response)
  }

  /** Lights: status 1 is on. */
  predicate LightIsOn(status: Value)
  {
    status == Num(1)
  }

  /** Doors: status 0 is closed, and closed counts as locked. */
  predicate DoorIsClosed(status: Value)
  {
    status == Num(0)
  }

  /** One backend record in the frontend's shape: exactly the frontend's
      keys, the same id, the location as name, and the status code turned
      into a boolean -- lights on at 1, doors closed (and locked) at 0. */
  function View(kind: Kind, item: Value): (out: Value)
    ensures out.Obj?
    ensures kind == Lights ==> out.fields.Keys == {"id", "nombre", "estado"}
    ensures kind == Doors ==> out.fields.Keys == {"id", "nombre", "cerrada", "bloqueada"}
    ensures Get(out, "id") == Get(item, "id") && Get(out, "nombre") == Get(item, "ubicacion")
    ensures kind == Lights ==> Get(out, "estado") == Bool(Get(item, "status") == Num(1))
    ensures kind == Doors ==> Get(out, "cerrada") == Bool(Get(item, "status") == Num(0))
    ensures kind == Doors ==> Get(out, "bloqueada") == Get(out, "cerrada")
  {
    var status := Get(item, "status");
    match kind
    case Lights =>
      Obj(map["id" := Get(item, "id"), "nombre" := Get(item, "ubicacion"),
              "estado" := Bool(LightIsOn(status))])
    case Doors =>
      Obj(map["id" := Get(item, "id"), "nombre" := Get(item, "ubicacion"),
              "cerrada" := Bool(DoorIsClosed(status)), "bloqueada" := Bool(DoorIsClosed(status))])
  }

  /** The TypeError a property read of `null`/`undefined` throws. */
  function NullReadMessage(v: Value): string
  {
    "Cannot read property 'id' of " + (if v.Null? then "null" else "undefined")
  }

  /** `items.map(...)`: throws at the first `null` entry. */
  function MapItems(kind: Kind, items: seq<Value>): (r: Result<seq<Value>>)
    ensures r.Success? <==> forall i :: 0 <= i < |items| ==> !Nullish(items[i])
    ensures r.Success? ==>
              |r.value| == |items| && forall i :: 0 <= i < |items| ==> r.value[i] == View(kind, items[i])
    ensures r.Failure? ==>
              exists k :: 0 <= k < |items| && Nullish(items[k]) && r.error == NullReadMessage(items[k])
                          && forall i :: 0 <= i < k ==> !Nullish(items[i])
  {
    if items == [] then Success([])
    else if Nullish(items[0]) then Failure(NullReadMessage(items[0]))
    else
      match MapItems(kind, items[1..])
      case Success(rest) => Success([View(kind, items[0])] + rest)
      case Failure(e) =>
        var r := Failure(e);
        assert exists k :: 0 <= k < |items| && Nullish(items[k]) && e == NullReadMessage(items[k])
                           && forall i :: 0 <= i < k ==> !Nullish(items[i]) by {
          var k :| 0 <= k < |items[1..]| && Nullish(items[1..][k]) && e == NullReadMessage(items[1..][k])
                   && forall i :: 0 <= i < k ==> !Nullish(items[1..][i]);
          assert Nullish(items[k + 1]);
          assert forall i :: 0 <= i < k + 1 ==> !Nullish(items[i]) by {
            forall i | 0 <= i < k + 1 ensures !Nullish(items[i]) {
              if i > 0 { assert items[i] == items[1..][i - 1]; }
            }
          }
        }
        r
  }

  /** `getAllLights` / `getAllDoors` after a successful request: only an
      array payload holding a `null` or `undefined` record makes it throw,
      and a falsy response or a payload other than an array comes back
      unchanged. */
  function Normalize(kind: Kind, response: Value): (r: Result<Value>)
    ensures r.Failure? <==>
              Truthy(response) && Payload(response).Arr?
              && exists i :: 0 <= i < |Payload(response).items| && Nullish(Payload(response).items[i])
    ensures !Truthy(response) || !Payload(response).Arr? ==> r == Success(response)
    ensures r.Success? && Truthy(response) && Payload(response).Arr? ==>
              var records := Payload(response).items;
              && Get(r.value, "status") == Bool(true) && Get(r.value, "data").Arr?
              && |Get(r.value, "data").items| == |records|
              && forall i :: 0 <= i < |records| ==> Get(r.value, "data").items[i] == View(kind, records[i])
    ensures r.Failure? ==>
              exists k :: 0 <= k < |Payload(response).items| && r.error == NullReadMessage(Payload(response).items[k])
  {
    if !Truthy(response) then Success(response)
    else
      var p := Payload(response);
      if !p.Arr? then Success(response)
      else
        match MapItems(kind, p.items)
        case Success(views) => Success(Obj(map["status" := Bool(true), "data" := Arr(views)]))
        case Failure(e) => Failure(e)
  }

  /** An array payload, bare or inside `body`, becomes `{status: true, data}`
      with one converted record per backend record, in the same order. */
  lemma NormalizeArray(kind: Kind, response: Value)
    requires Truthy(response) && Payload(response).Arr?
    requires forall i :: 0 <= i < |Payload(response).items| ==> !Nullish(Payload(response).items[i])
    ensures var records := Payload(response).items;
            var r := Normalize(kind, response);
            && r.Success? && Get(r.value, "status") == Bool(true)
            && Get(r.value, "data").Arr?
            && |Get(r.value, "data").items| == |records|
            && forall i :: 0 <= i < |records| ==>
                 var out := Get(r.value, "data").items[i];
                 var status := Get(records[i], "status");
                 && Get(out, "id") == Get(records[i], "id")
                 && Get(out, "nombre") == Get(records[i], "ubicacion")
                 && (kind == Lights ==> Get(out, "estado") == Bool(status == Num(1)))
                 && (kind == Doors ==> Get(out, "cerrada") == Bool(status == Num(0)))
                 && (kind == Doors ==> Get(out, "bloqueada") == Get(out, "cerrada"))
  {
    var records := Payload(response).items;
    var views := MapItems(kind, records).value;
    assert Get(Normalize(kind, response).value, "data") == Arr(views);
    forall i | 0 <= i < |records|
      ensures var out := views[i];
              var status := Get(records[i], "status");
              && Get(out, "id") == Get(records[i], "id")
              && Get(out, "nombre") == Get(records[i], "ubicacion")
              && (kind == Lights ==> Get(out, "estado") == Bool(status == Num(1)))
              && (kind == Doors ==> Get(out, "cerrada") == Bool(status == Num(0)))
              && (kind == Doors ==> Get(out, "bloqueada") == Get(out, "cerrada"))
    {
      assert views[i] == View(kind, records[i]);
    }
  }

  /** `getLight` / `getDoor` after a successful request. The `if (luz)` /
      `if (puerta)` guard never fails: a truthy response always becomes
      `{status: true, data}` with the converted payload, whatever its shape;
      a falsy one comes back as it is. */
  function NormalizeOne(kind: Kind, response: Value): (r: Value)
    ensures Truthy(response) ==>
              && r.Obj? && r.fields.Keys == {"status", "data"}
              && Get(r, "status") == Bool(true) && Get(r, "data") == View(kind, Payload(response))
    ensures !Truthy(response) ==> r == response
  {
    if !Truthy(response) then response
    else
      var p := Payload(response);
      if Truthy(p) then Obj(map["status" := Bool(true), "data" := View(kind, p)])
      else response
  }

  /** `nuevoEstado ? 1 : 0`. */
  function LightCode(on: bool): int
  {
    if on then 1 else 0
  }

  /** `cerrar ? 0 : 1`. */
  function DoorCode(close: bool): int
  {
    if close then 0 else 1
  }

  /** Decoding what was encoded gives the boolean back; the two encodings
      are each other's inverse. */
  lemma CodesRoundTrip(b: bool)
    ensures LightIsOn(Num(LightCode(b))) == b
    ensures DoorIsClosed(Num(DoorCode(b))) == b
    ensures DoorCode(b) == 1 - LightCode(b)
  {
  }

  function StatusBody(code: int): Value
  {
    Obj(map["status" := Num(code)])
  }

  function AllCall(kind: Kind): Dispatcher.ApiCall
  {
    Dispatcher.ApiCall(Dispatcher.Get, if kind == Lights then ApiConfig.LightsAll else ApiConfig.DoorsAll, None)
  }

  function OneCall(kind: Kind, id: int): Dispatcher.ApiCall
  {
    Dispatcher.ApiCall(Dispatcher.Get, (if kind == Lights then ApiConfig.LightsOne else ApiConfig.DoorsOne) + IntText(id), None)
  }

  /** `toggleLight(id, on)` / `toggleDoorState(id, close)`: a POST to the
      device's status endpoint whose status reads back, through the same
      decoding the normaliser applies to the stored status, as the requested
      boolean. */
  function ToggleCall(kind: Kind, id: int, b: bool): (c: Dispatcher.ApiCall)
    ensures c.verb == Dispatcher.Post && c.body.Some?
    ensures kind == Lights ==> LightIsOn(Get(c.body.value, "status")) == b
    ensures kind == Doors ==> DoorIsClosed(Get(c.body.value, "status")) == b
    ensures c.endpoint == (if kind == Lights then "/api/luces/estado/" else "/api/puertas/estado/") + IntText(id)
  {
    match kind
    case Lights => Dispatcher.ApiCall(Dispatcher.Post, "/api/luces/estado/" + IntText(id), Some(StatusBody(LightCode(b))))
    case Doors => Dispatcher.ApiCall(Dispatcher.Post, "/api/puertas/estado/" + IntText(id), Some(StatusBody(DoorCode(b))))
  }

  /** `lockDoor` and `unlockDoor`. */
  function LockCall(id: int, lock: bool): (c: Dispatcher.ApiCall)
    ensures c.body == Some(StatusBody(if lock then 0 else 1))
  {
    ToggleCall(Doors, id, lock)
  }

  /** Toggling light 3 on posts `{"status": 1}` to `/api/luces/estado/3`. */
  lemma ToggleLightThreeOn()
    ensures ToggleCall(Lights, 3, true) ==
            Dispatcher.ApiCall(Dispatcher.Post, "/api/luces/estado/3", Some(Obj(map["status" := Num(1)])))
  {
  }

  /** What a wrapper hands back: the call it sent, its result (rethrown on
      failure), the alert `handleApiError` showed, and the dispatcher's
      memory cell afterwards. */
  datatype Fetched = Fetched(sent: Dispatcher.ApiCall, result: Result<Value>, alert: Option<ErrorClassifier.Alert>,
                             memory: Option<string>)

  /** The catch every wrapper shares: alert, then rethrow. */
  function Report(sent: Dispatcher.ApiCall, result: Result<Value>, memory: Option<string>): (f: Fetched)
    ensures f.sent == sent && f.result == result && f.memory == memory
    ensures f.alert.Some? <==> result.Failure?
    ensures result.Failure? ==> f.alert == Some(ErrorClassifier.HandleApiError(result.error))
  {
    Fetched(sent, result, if result.Failure? then Some(ErrorClassifier.HandleApiError(result.error)) else None, memory)
  }

  /** `getAllLights()` / `getAllDoors()`: a request that fails is alerted
      once and rethrown unchanged; an answer is normalised, and a record the
      normaliser cannot read is alerted and thrown too; the cell is the one
      the dispatcher left. */
  function GetAll(net: Dispatcher.Network, bases: seq<string>, memory: Option<string>, kind: Kind): (f: Fetched)
    ensures var d := Dispatcher.Request(net, bases, memory, AllCall(kind));
            && f.sent == AllCall(kind) && f.memory == d.memory
            && (d.result.Failure? ==> f.result == d.result)
            && (d.result.Success? ==> f.result == Normalize(kind, d.result.value))
    ensures var d := Dispatcher.Request(net, bases, memory, AllCall(kind));
            d.result.Success? && Truthy(d.result.value) && Payload(d.result.value).Arr?
            && (forall i :: 0 <= i < |Payload(d.result.value).items| ==> !Nullish(Payload(d.result.value).items[i])) ==>
              var records := Payload(d.result.value).items;
              && f.result.Success? && f.alert.None?
              && Get(f.result.value, "status") == Bool(true) && Get(f.result.value, "data").Arr?
              && |Get(f.result.value, "data").items| == |records|
              && forall i :: 0 <= i < |records| ==> Get(f.result.value, "data").items[i] == View(kind, records[i])
    ensures f.alert.Some? <==> f.result.Failure?
    ensures f.result.Failure? ==> f.alert == Some(ErrorClassifier.HandleApiError(f.result.error))
  {
    var d := Dispatcher.Request(net, bases, memory, AllCall(kind));
    Report(AllCall(kind), if d.result.Success? then Normalize(kind, d.result.value) else d.result, d.memory)
  }

  /** `getLight(id)` / `getDoor(id)`: an answer never fails to convert --
      a truthy one is wrapped as `{status: true, data}` around the converted
      record and raises no alert; a failed request is alerted and rethrown
      unchanged. */
  function GetOne(net: Dispatcher.Network, bases: seq<string>, memory: Option<string>, kind: Kind, id: int): (f: Fetched)
    ensures var d := Dispatcher.Request(net, bases, memory, OneCall(kind, id));
            && f.sent == OneCall(kind, id) && f.memory == d.memory
            && (f.result.Failure? <==> d.result.Failure?)
            && (d.result.Failure? ==> f.result == d.result && f.alert == Some(ErrorClassifier.HandleApiError(d.result.error)))
            && (d.result.Success? ==> f.alert.None?)
            && (d.result.Success? && Truthy(d.result.value) ==>
                  Get(f.result.value, "status") == Bool(true)
                  && Get(f.result.value, "data") == View(kind, Payload(d.result.value)))
            && (d.result.Success? && !Truthy(d.result.value) ==> f.result == d.result)
  {
    var d := Dispatcher.Request(net, bases, memory, OneCall(kind, id));
    Report(OneCall(kind, id), if d.result.Success? then Success(NormalizeOne(kind, d.result.value)) else d.result, d.memory)
  }

  /** `toggleLight(id, on)` / `toggleDoorState(id, close)`: the POST for the
      requested state is sent, and the raw response is returned as the
      server sent it; a failure is alerted once and rethrown unchanged. */
  function Toggle(net: Dispatcher.Network, bases: seq<string>, memory: Option<string>, kind: Kind, id: int, b: bool): (f: Fetched)
    ensures f.sent == ToggleCall(kind, id, b)
    ensures var d := Dispatcher.Request(net, bases, memory, f.sent);
            f.result == d.result && f.memory == d.memory
    ensures f.alert.Some? <==> f.result.Failure?
    ensures f.result.Failure? ==> f.alert == Some(ErrorClassifier.HandleApiError(f.result.error))
  {
    var d := Dispatcher.Request(net, bases, memory, ToggleCall(kind, id, b));
    Report(ToggleCall(kind, id, b), d.result, d.memory)
  }
}
