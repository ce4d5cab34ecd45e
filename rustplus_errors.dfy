/** The `error` event of a Rust+ connection: which transport failures lead to a reconnect. */
module RustplusErrors {
  import opened Common
  import opened Document
  import opened Bot
  import opened Reconnect

  /** A transport error as the handler sees it: `err.code`, `err.syscall` (either may be
      absent) and `err.toString()`. */
  datatype TransportError = TransportError(code: Option<string>, syscall: Option<string>, text: string)

  const WebSocketClosedEarly: string := "Error: WebSocket was closed before the connection was established"

  /** `errorTimedOut`: a time-out reconnects only when it happened while connecting. */
  function ErrorTimedOut(err: TransportError): (r: bool)
    ensures r <==> err.syscall == Some("connect")
  {
    err.syscall.Some? && err.syscall.value == "connect"
  }

  /** `errorNotFound`: an unresolved host reconnects only when the lookup itself failed. */
  function ErrorNotFound(err: TransportError): (r: bool)
    ensures r <==> err.syscall == Some("getaddrinfo")
  {
    err.syscall.Some? && err.syscall.value == "getaddrinfo"
  }

  /** `errorConnRefused`: a refused connection always reconnects. */
  function ErrorConnRefused(err: TransportError): bool {
    true
  }

  /** `errorOther`: any other error reconnects only for a socket closed before it opened. */
  function ErrorOther(err: TransportError): (r: bool)
    ensures r <==> err.text == WebSocketClosedEarly
  {
    err.text == WebSocketClosedEarly
  }

  /** The dispatch on `err.code` in `execute`. */
  function ShouldReconnect(err: TransportError): (r: bool)
    ensures err.code == Some("ETIMEDOUT") ==> (r <==> err.syscall == Some("connect"))
    ensures err.code == Some("ENOTFOUND") ==> (r <==> err.syscall == Some("getaddrinfo"))
    ensures err.code == Some("ECONNREFUSED") ==> r
    ensures err.code !in {Some("ETIMEDOUT"), Some("ENOTFOUND"), Some("ECONNREFUSED")} ==>
              (r <==> err.text == WebSocketClosedEarly)
  {
    match err.code
    case Some("ETIMEDOUT") => ErrorTimedOut(err)
    case Some("ENOTFOUND") => ErrorNotFound(err)
    case Some("ECONNREFUSED") => ErrorConnRefused(err)
    case _ => ErrorOther(err)
  }

  /** `execute(rustplus, client, err)`. `serverAvailable` is `rustplus.isServerAvailable()`
      and `configured` the configured reconnect interval. When the server is no longer
      available the connection is deleted and nothing else happens; otherwise a reconnect
      is scheduled exactly when the classifier asks for one. */
  method HandleRustplusError(client: Client, rustplus: Session, err: TransportError, serverAvailable: bool,
                             configured: Number)
    modifies client`outbox, client`rustplusReconnecting, client`rustplusInstances, client`rustplusReconnectTimers
    ensures !serverAvailable ==>
              ReconnectStateOf(client)
                == old(ReconnectStateOf(client)).(outbox := old(client.outbox) + [DeleteRustplusInstance(rustplus.guildId)])
    ensures serverAvailable && !(ShouldReconnect(err) && old(ShouldSchedule(rustplus, client.activeRustplusInstances))) ==>
              ReconnectStateOf(client) == old(ReconnectStateOf(client))
    ensures serverAvailable && ShouldReconnect(err) && old(ShouldSchedule(rustplus, client.activeRustplusInstances)) ==>
              ReconnectStateOf(client) == Rescheduled(old(ReconnectStateOf(client)), rustplus, GetReconnectDelay(configured))
  {
    if !serverAvailable {
      client.outbox := client.outbox + [DeleteRustplusInstance(rustplus.guildId)];
      return;
    }
    var shouldScheduleReconnect := ShouldReconnect(err);
    if shouldScheduleReconnect {
      var _ := ScheduleRustplusReconnect(client, rustplus, configured);
    }
  }
}
