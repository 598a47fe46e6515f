/** What a handler answers, as the handlers of internal/handlers write it: a 303 redirect,
    an error status with its message, the inventory API's JSON reply, a rendered page, or
    an agent script. Page markup, headers beyond the script's and HTMX fragments are not
    modelled. */
module Http {
  import opened Wrappers
  import opened Models
  import opened Generator

  const StatusOK := 200
  const StatusSeeOther := 303
  const StatusBadRequest := 400
  const StatusUnauthorized := 401
  const StatusForbidden := 403
  const StatusNotFound := 404
  const StatusInternalServerError := 500

  const LoginPath: string := "/auth/login"

  /** The outcome of a store read as a handler sees it: a row, `nil` with no error, or an
      error from the database. */
  datatype Lookup<+T> = Found(value: T) | Missing | Failed

  /** A read of the in-memory store, which does not fail. */
  function FromOption<T>(o: Option<T>): (l: Lookup<T>)
    ensures l.Found? <==> o.Some?
    ensures l.Found? ==> l.value == o.value
    ensures !l.Failed?
  {
    match o
    case Some(v) => Found(v)
    case None => Missing
  }

  /** A check in front of an action: refuse with a response, or go on with a value. */
  datatype Gate<+T> = Deny(response: Response) | Pass(value: T)

  /** The pages the handlers in this model render, with the data they are given. */
  datatype View =
    | MachineView(machine: Machine, latest: Option<InventorySnapshot>, history: seq<InventorySnapshot>, notes: seq<MachineNote>)
    | FleetView(machines: seq<MachineWithOwner>, filterOwner: string, filterMachine: string)
    | SharedView(machines: seq<MachineWithOwner>, link: ShareLink)
    | ShareLinksView(links: seq<ShareLink>, newLinkId: string)

  datatype Response =
    | Redirect(location: string)
    | Error(status: int, message: string)
    | Json(fields: map<string, string>)
    | Page(view: View)
    | Script(contentType: string, disposition: string, osType: string, data: ScriptData)

  /** The HTTP status each response is written with. */
  function Status(r: Response): (code: int)
    ensures r.Redirect? ==> code == StatusSeeOther
    ensures r.Error? ==> code == r.status
    ensures r.Json? || r.Page? || r.Script? ==> code == StatusOK
  {
    match r
    case Redirect(_) => StatusSeeOther
    case Error(status, _) => status
    case _ => StatusOK
  }
}
