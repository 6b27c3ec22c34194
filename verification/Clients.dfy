/** The client table as a value. */
module Clients {

  datatype ClientView = ClientView(ip: string, nickname: string, isAuthenticated: bool, roomCode: string)

  type ClientMap = map<int, ClientView>

  function AddClient(clients: ClientMap, fd: int, ip: string): (clients': ClientMap) {
    clients[fd := ClientView(ip, "", false, "")]
  }

  function RemoveClient(clients: ClientMap, nicknames: set<string>, fd: int): (next: (ClientMap, set<string>)) {
    if fd !in clients then (clients, nicknames)
    else (clients - {fd}, if clients[fd].isAuthenticated then nicknames - {clients[fd].nickname} else nicknames)
  }

  function SetNickname(clients: ClientMap, nicknames: set<string>, fd: int, nickname: string)
    : (next: (ClientMap, set<string>))
  {
    if fd !in clients then (clients, nicknames)
    else (clients[fd := clients[fd].(nickname := nickname, isAuthenticated := true)], nicknames + {nickname})
  }

  function SetRoomCode(clients: ClientMap, fd: int, code: string): (clients': ClientMap)
    requires fd in clients
  {
    clients[fd := clients[fd].(roomCode := code)]
  }

  /** The room the server believes a descriptor is in; "" outside. */
  function RoomOf(clients: ClientMap, fd: int): (code: string) {
    if fd in clients then clients[fd].roomCode else ""
  }
}
