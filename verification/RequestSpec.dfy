/** What a request asks for, said of its JSON tree and by the literal text of its type: which requests are acceptable,
    and what is to be set about for them. */
module RequestSpec {
  import opened RequestInput

  datatype Lists = Lists(periodic: EventList, change: EventList, user: EventList, archive: EventList)

  const NO_LISTS := Lists(map[], map[], map[], map[])

  /** The state of the world a request meets: whether anyone has subscribed to events yet, whether the user may do
      this, and whether permission is asked in the form with "/write". */
  datatype World = World(subscribed: bool, allowed: bool, permissionWww: bool)

  /** What the server sets about. Unsupported stands for the answers to types no handler knows. */
  datatype Outcome =
    | Rejected
    | Status
    | Authenticate(login: string, password: string)
    | EmptyCredentials
    | Denied
    | RunCommand(device: string, name: string, group: bool, permission: string)
    | WriteAttribute(device: string, name: string, group: bool, permission: string)
    | ReadAttributes(device: string, names: seq<string>, group: bool)
    | ReadPipe(device: string, name: string, group: bool)
    | NotSubscribed
    | AddEvents(lists: Lists)
    | EventsOff
    | RemoveEvent(id: string)
    | BadEventType
    | CheckEvent(eventType: string, device: string, attribute: string)
    | Unsupported

  // ----- the texts -----

  predicate CommandText(s: string) {
    s == "command" || s == "command_device" || s == "command_group" || s == "command_device_cl"
  }

  predicate PipeText(s: string) {
    s == "read_pipe" || s == "read_pipe_dev" || s == "read_pipe_gr"
  }

  predicate WriteText(s: string) {
    s == "write_attr" || s == "write_attr_dev" || s == "write_attr_gr" || s == "write_attr_dev_cl"
  }

  predicate ReadText(s: string) {
    s == "read_attr" || s == "read_attr_dev" || s == "read_attr_gr" || s == "attr_group_cl"
  }

  // ----- what a request must have -----

  predicate TreeValue(kids: seq<(string, Tree)>, k: string) {
    SomePuts(kids, k, Value)
  }

  /** A list with a device in it: the key is an object, and the last child that is one names a device. */
  predicate TreeList(kids: seq<(string, Tree)>, k: string) {
    TreeKind(kids, k) == Object && HasDevice(ObjectOf(kids, k))
  }

  /** What the children of a request must hold, by the text of its type. */
  predicate TextNeeds(text: string, kids: seq<(string, Tree)>) {
    if CommandText(text) then TreeValue(kids, "command_name") && TreeValue(kids, "device_name")
    else if PipeText(text) then TreeValue(kids, "pipe_name") && TreeValue(kids, "device_name")
    else if WriteText(text) then TreeValue(kids, "attr_name") && TreeValue(kids, "device_name")
    else if ReadText(text) then
      (TreeValue(kids, "attr_name") || SomePuts(kids, "attr_name", Array)) && TreeValue(kids, "device_name")
    else if text == "change_user_smpl" then TreeValue(kids, "login") && TreeValue(kids, "password")
    else if text == "eventreq_add_dev" then
      TreeList(kids, "periodic") || TreeList(kids, "change") || TreeList(kids, "user") || TreeList(kids, "archive")
    else if text == "eventreq_rem_dev" then TreeValue(kids, "event_sub_id")
    else if text == "eventreq_check_dev" then
      TreeValue(kids, "event_type") && TreeValue(kids, "device") && TreeValue(kids, "attribute")
    else text == "eventreq_off" || text == "user_status"
  }

  /** The text of the last type. */
  function LastText(kids: seq<(string, Tree)>): string {
    if kids == [] then ""
    else
      var n := |kids| - 1;
      if kids[n].0 == "type_req" then kids[n].1.data else LastText(kids[..n])
  }

  /** No type is empty, and what the last one needs is there. */
  predicate Acceptable(kids: seq<(string, Tree)>) {
    NoEmptyType(kids) && TextNeeds(LastText(kids), kids)
  }

  // ----- what it means -----

  predicate GroupAsked(kids: seq<(string, Tree)>) {
    TreeValue(kids, "group_request") && ValueOf(kids, "group_request") == "true"
  }

  function Permission(name: string, w: World): string {
    if w.permissionWww then name + "/write" else name
  }

  function ListFrom(kids: seq<(string, Tree)>, k: string): EventList {
    if TreeKind(kids, k) == Object then SubList(ObjectOf(kids, k)) else map[]
  }

  /** What is set about for an acceptable request, by the text of its type. */
  function Meant(kids: seq<(string, Tree)>, w: World): Outcome
    requires Acceptable(kids)
  {
    var text := LastText(kids);
    if CommandText(text) then
      var name := ValueOf(kids, "command_name");
      if !w.allowed then Denied
      else RunCommand(ValueOf(kids, "device_name"), name, GroupAsked(kids), Permission(name, w))
    else if PipeText(text) then ReadPipe(ValueOf(kids, "device_name"), ValueOf(kids, "pipe_name"), GroupAsked(kids))
    else if WriteText(text) then
      var name := ValueOf(kids, "attr_name");
      if !w.allowed then Denied
      else WriteAttribute(ValueOf(kids, "device_name"), name, GroupAsked(kids), Permission(name, w))
    else if ReadText(text) then
      ReadAttributes(ValueOf(kids, "device_name"),
                     if TreeValue(kids, "attr_name") then [ValueOf(kids, "attr_name")] else ArrayOf(kids, "attr_name"),
                     GroupAsked(kids))
    else if text == "change_user_smpl" then Authenticate(ValueOf(kids, "login"), ValueOf(kids, "password"))
    else if text == "user_status" then Status
    else if text == "eventreq_add_dev" then
      AddEvents(Lists(ListFrom(kids, "periodic"), ListFrom(kids, "change"), ListFrom(kids, "user"),
                      ListFrom(kids, "archive")))
    else if !w.subscribed then NotSubscribed
    else if text == "eventreq_off" then EventsOff
    else if text == "eventreq_rem_dev" then RemoveEvent(ValueOf(kids, "event_sub_id"))
    else
      var typ := ValueOf(kids, "event_type");
      if typ == "change" || typ == "periodic" || typ == "user" || typ == "archive" then
        CheckEvent(typ, ValueOf(kids, "device"), ValueOf(kids, "attribute"))
      else BadEventType
  }
}
