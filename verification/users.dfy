/** The users context (src/context/EstadoGloblaUser.tsx): loading the user
    list from `/api/usuario`, whichever envelope the server wraps it in, and
    deleting a user after confirmation. These calls go through the
    dispatcher directly, without `handleApiError`. */
module UsersContext {
  import opened Wrappers
  import opened JsValue
  import Dispatcher

  const UsersEndpoint: string := "/api/usuario"
  const DeleteEndpoint: string := "/api/usuario/eliminar"

  const BadResponseMessage: string := "No se pudieron cargar los usuarios"
  const LoadErrorMessage: string := "Error al cargar usuarios"
  const DeleteFailedMessage: string := "No se pudo eliminar el usuario"
  const UnknownError: string := "Error desconocido"

  const ListCall: Dispatcher.ApiCall := Dispatcher.ApiCall(Dispatcher.Get, UsersEndpoint, None)

  /** The context after `cargarUsuarios`: the list and the error message
      (loading is off again). */
  datatype Users = Users(usuarios: Value, error: Option<string>)

  /** The list inside a body: the body itself when it is an array, else its
      `data` member when truthy, else the body. */
  function Unwrap(body: Value): (users: Value)
    ensures body.Arr? ==> users == body
    ensures !body.Arr? && Truthy(Get(body, "data")) ==> users == Get(body, "data")
    ensures Truthy(body) ==> Truthy(users)
  {
    if body.Arr? then body else Or(Get(body, "data"), body)
  }

  /** `cargarUsuarios` with the list held before, given what the request
      resolved or threw. */
  function CargarUsuarios(prior: Value, response: Result<Value>): (s: Users)
    ensures s.error.None? <==> response.Success? && Truthy(response.value) && Truthy(Get(response.value, "body"))
    ensures s.error.None? ==> s.usuarios == Unwrap(Get(response.value, "body")) && Truthy(s.usuarios)
    ensures s.error.Some? ==> s.usuarios == prior
    ensures response.Failure? ==> s.error == Some(LoadErrorMessage)
    ensures response.Success? && s.error.Some? ==> s.error == Some(BadResponseMessage)
  {
    match response
    case Success(r) =>
      if Truthy(r) && Truthy(Get(r, "body")) then Users(Unwrap(Get(r, "body")), None)
      else Users(prior, Some(BadResponseMessage))
    case Failure(_) => Users(prior, Some(LoadErrorMessage))
  }

  /** The three envelopes the context accepts agree: `{body: list}`,
      `{body: {data: list}}` and an object body without `data` all yield
      the list itself (an array is truthy even when empty). */
  lemma EnvelopesAgree(prior: Value, list: seq<Value>, other: map<string, Value>)
    requires "data" !in other
    ensures var direct := Obj(map["body" := Arr(list)]);
            var wrapped := Obj(map["body" := Obj(map["data" := Arr(list)])]);
            var bare := Obj(map["body" := Obj(other)]);
            && CargarUsuarios(prior, Success(direct)) == Users(Arr(list), None)
            && CargarUsuarios(prior, Success(wrapped)) == Users(Arr(list), None)
            && CargarUsuarios(prior, Success(bare)) == Users(Obj(other), None)
  {
  }

  /** A failed reload never empties the list on screen. */
  lemma FailedLoadKeepsList(prior: Value, response: Result<Value>)
    requires response.Failure? || !Truthy(response.value) || !Truthy(Get(response.value, "body"))
    ensures CargarUsuarios(prior, response).usuarios == prior
  {
  }

  function DeleteCall(id: int): Dispatcher.ApiCall
  {
    Dispatcher.ApiCall(Dispatcher.Post, DeleteEndpoint, Some(Obj(map["id" := Num(id)])))
  }

  datatype Notice =
    | Nothing
    | Deleted(message: string)
    | Refused(message: string)
    | Failed(message: string)

  /** What `eliminarUsuario` leaves behind: the request sent (if any), the
      alert, whether the list is reloaded, and the loading flag the handler
      leaves (a reload clears it again when it finishes). */
  datatype Deletion = Deletion(sent: Option<Dispatcher.ApiCall>, notice: Notice, reload: bool, loading: bool)

  function DeletedMessage(nombre: string): string
  {
    "Usuario " + nombre + " eliminado correctamente"
  }

  function RefusedMessage(mensaje: Value): string
  {
    DeleteFailedMessage + ": " + TextOr(mensaje, UnknownError)
  }

  /** The server accepted the deletion: a truthy answer without a truthy
      `error`. */
  predicate Accepted(r: Value)
  {
    Truthy(r) && !Truthy(Get(r, "error"))
  }

  /** `eliminarUsuario(id, nombre)`: `confirmed` is the button pressed in
      the confirmation dialog, `loading` the flag before, and `response`
      what the request resolved or threw (only consulted when sent). */
  function EliminarUsuario(id: int, nombre: string, confirmed: bool, loading: bool, response: Result<Value>): (d: Deletion)
    ensures d.sent.Some? <==> confirmed
    ensures d.sent.Some? ==> d.sent.value == DeleteCall(id) && Get(d.sent.value.body.value, "id") == Num(id)
    ensures !confirmed ==> d == Deletion(None, Nothing, false, loading)
    ensures d.reload <==> confirmed && response.Success? && Accepted(response.value)
    ensures confirmed ==> d.loading == d.reload
    ensures d.reload ==> d.notice == Deleted(DeletedMessage(nombre))
    ensures confirmed && response.Failure? ==> d.notice == Failed(DeleteFailedMessage)
    ensures confirmed && response.Success? && !Accepted(response.value) ==>
              d.notice == Refused(RefusedMessage(Get(response.value, "mensaje")))
  {
    if !confirmed then Deletion(None, Nothing, false, loading)
    else
      var sent := Some(DeleteCall(id));
      match response
      case Success(r) =>
        if Accepted(r) then Deletion(sent, Deleted(DeletedMessage(nombre)), true, true)
        else Deletion(sent, Refused(RefusedMessage(Get(r, "mensaje"))), false, false)
      case Failure(_) => Deletion(sent, Failed(DeleteFailedMessage), false, false)
  }
}
