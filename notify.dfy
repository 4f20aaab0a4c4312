/**
 * `notify` of src/notify.h: send one Notify call to org.freedesktop.Notifications
 * and capture the id the server assigns.
 */
module Notify {
  import opened Common

  /** The opaque hint callbacks a caller may attach; `notify` never runs them. */
  type Hint = string

  /** `notification_t`: the caller's description of a notification; absent strings are NULL. */
  datatype Notification = Notification(
    app: Option<string>,
    title: Option<string>,
    body: Option<string>,
    bodyMarkup: Option<string>,
    icon: Option<string>,
    replaceId: uint32,
    timeout: uint32,
    hints: seq<Hint>)

  /** The arguments of the Notify method call, signature "susssasa{sv}i". */
  datatype NotifyCall = NotifyCall(
    appName: string,
    replacesId: uint32,
    appIcon: string,
    summary: string,
    body: string,
    actions: seq<string>,
    hints: seq<(string, string)>,
    expireTimeout: int32)

  /** How the notification server answers: the call's result, then the read of the returned id. */
  datatype Server = Server(call: Reply<nat>, returnedId: Reply<uint32>)

  /** `s ? s : ""`. */
  function OrEmpty(s: Option<string>): (r: string)
    ensures s.None? ==> r == ""
    ensures s.Some? ==> r == s.value
  {
    if s.Some? then s.value else ""
  }

  /** The Notify arguments `notify` sends for `notif`: NULL strings as "", no actions, no hints. */
  function WireCall(notif: Notification): (c: NotifyCall)
    ensures c.appName == OrEmpty(notif.app) && c.appIcon == OrEmpty(notif.icon)
    ensures c.summary == OrEmpty(notif.title) && c.body == OrEmpty(notif.body)
    ensures c.replacesId == notif.replaceId && c.expireTimeout == AsInt32(notif.timeout)
    ensures c.actions == [] && c.hints == []
  {
    NotifyCall(OrEmpty(notif.app), notif.replaceId, OrEmpty(notif.icon),
               OrEmpty(notif.title), OrEmpty(notif.body), [], [], AsInt32(notif.timeout))
  }

  /**
   * What the caller's id place holds after `notify` (None for a NULL pointer):
   * the id the server returned, written only on a successful call that is not
   * a replacement and whose id could be read; otherwise the old value.
   */
  function IdAfter(notif: Notification, server: Server, notifId: Option<uint32>): (id: Option<uint32>)
    ensures id.Some? <==> notifId.Some?
    ensures id != notifId ==> server.call.Ok? && notif.replaceId == 0 && server.returnedId.Ok?
    ensures server.call.Ok? && notif.replaceId == 0 && notifId.Some? && server.returnedId.Ok? ==>
      id == Some(server.returnedId.value)
  {
    if server.call.Ok? && notif.replaceId == 0 && notifId.Some? && server.returnedId.Ok?
    then Some(server.returnedId.value)
    else notifId
  }

  /** Replacing an existing notification never changes the caller's id. */
  lemma ReplaceKeepsId(notif: Notification, server: Server, notifId: Option<uint32>)
    requires notif.replaceId != 0
    ensures IdAfter(notif, server, notifId) == notifId
  {
  }

  /** The result `notify` returns: the call's own result, even when the id read fails. */
  function Result(server: Server): (r: int)
    ensures r < 0 <==> server.call.Fail?
  {
    match server.call
    case Fail(e) => e
    case Ok(v) => v
  }

  /**
   * notify: send the call; on failure return its negative code and leave the
   * caller's id alone. On success, read the new id into `*notif_id` only when
   * this is not a replacement (`replace_id == 0`) and the caller gave a place
   * for it; a failed read is not reported. `notifId` is that place (None for
   * NULL, Some(v) for a variable holding v) and `notifId'` what it holds after.
   */
  method Notify(notif: Notification, server: Server, notifId: Option<uint32>)
    returns (r: int, sent: NotifyCall, notifId': Option<uint32>)
    ensures sent == WireCall(notif)
    ensures r == Result(server)
    ensures notifId' == IdAfter(notif, server, notifId)
  {
    sent := NotifyCall(OrEmpty(notif.app), notif.replaceId, OrEmpty(notif.icon),
                       OrEmpty(notif.title), OrEmpty(notif.body), [], [], AsInt32(notif.timeout));
    notifId' := notifId;
    if server.call.Fail? {
      r := server.call.errno;
      return;
    }
    r := server.call.value;
    if notif.replaceId == 0 && notifId.Some? {
      if server.returnedId.Ok? {
        notifId' := Some(server.returnedId.value);
      }
    }
  }
}
