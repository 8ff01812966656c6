/**
  `ConnectionManager`: the open web sockets of each chat, in the order they
  connected. A chat is listed only while it has a socket. Sending a message
  to a chat is modelled as the list of deliveries it makes.
*/
module Sockets {
  import opened Util
  import opened Seqs
  import opened Errors
  import opened PyRepr

  /** A web socket, by identity. */
  type Socket = nat

  type Chats = map<string, seq<Socket>>

  /** The sockets of a chat; none for a chat that is not listed. */
  function SocketsOf(chats: Chats, chat: string): seq<Socket> {
    if chat in chats then chats[chat] else []
  }

  /** No chat is listed with an empty list. */
  predicate NoEmptyChats(chats: Chats) {
    forall chat :: chat in chats ==> chats[chat] != []
  }

  /** `connect`: the socket joins the end of the chat's list, which is
      created when the chat is new. */
  function Connect(chats: Chats, ws: Socket, chat: string): (r: Chats)
    ensures chat in r && r[chat] == SocketsOf(chats, chat) + [ws]
    ensures forall c :: c != chat ==> SocketsOf(r, c) == SocketsOf(chats, c)
    ensures r.Keys == chats.Keys + {chat}
    ensures NoEmptyChats(chats) ==> NoEmptyChats(r)
  {
    chats[chat := SocketsOf(chats, chat) + [ws]]
  }

  const NotInListText: string := "list.remove(x): x not in list"

  /** `disconnect`: `KeyError` for an unknown chat, `ValueError` for a
      socket not in its list; otherwise the socket's first occurrence is
      removed and a chat left without sockets is dropped. */
  function Disconnect(chats: Chats, ws: Socket, chat: string): (r: Result<Chats, Error>)
    ensures r.Err? <==> chat !in chats || ws !in chats[chat]
    ensures chat !in chats ==> r.Err? && r.error.kind == Foreign("KeyError")
    ensures chat !in chats ==> ReadsAs(r.error.message, chat)
    ensures chat in chats && ws !in chats[chat] ==> r.Err? && r.error.kind == Foreign("ValueError")
    ensures r.Ok? ==> SocketsOf(r.value, chat) == RemoveFirst(chats[chat], ws)
    ensures r.Ok? ==> multiset(SocketsOf(r.value, chat)) == multiset(chats[chat]) - multiset{ws}
    ensures r.Ok? ==> (chat in r.value <==> SocketsOf(r.value, chat) != [])
    ensures r.Ok? ==> forall c :: c != chat ==> SocketsOf(r.value, c) == SocketsOf(chats, c)
    ensures r.Ok? && NoEmptyChats(chats) ==> NoEmptyChats(r.value)
  {
    if chat !in chats then Err(KeyErrorOf(chat))
    else if ws !in chats[chat] then Err(Raise(Foreign("ValueError"), NotInListText))
    else
      var rest := RemoveFirst(chats[chat], ws);
      RemoveFirstMultiset(chats[chat], ws);
      Ok(if rest == [] then chats - {chat} else chats[chat := rest])
  }

  /** A socket's connection and its disconnection leave the chats as they
      were, provided the socket was not already connected to that chat. */
  lemma ConnectThenDisconnect(chats: Chats, ws: Socket, chat: string)
    requires NoEmptyChats(chats)
    requires ws !in SocketsOf(chats, chat)
    ensures Disconnect(Connect(chats, ws, chat), ws, chat) == Ok(chats)
  {
    if chat in chats {
      ReconnectKnownChat(chats, ws, chat);
    } else {
      ConnectNewChat(chats, ws, chat);
    }
  }

  lemma ReconnectKnownChat(chats: Chats, ws: Socket, chat: string)
    requires chat in chats && chats[chat] != [] && ws !in chats[chat]
    ensures Disconnect(Connect(chats, ws, chat), ws, chat) == Ok(chats)
  {
    var connected := chats[chat := chats[chat] + [ws]];
    assert Connect(chats, ws, chat) == connected;
    assert ws in connected[chat];
    RemoveFirstOfAppended(chats[chat], ws);
    assert RemoveFirst(connected[chat], ws) == chats[chat];
    assert Disconnect(connected, ws, chat) == Ok(connected[chat := chats[chat]]);
    UpdateThenRestore(chats, chat, chats[chat] + [ws]);
  }

  lemma UpdateThenRestore(chats: Chats, chat: string, v: seq<Socket>)
    requires chat in chats
    ensures chats[chat := v][chat := chats[chat]] == chats
  {
  }

  lemma ConnectNewChat(chats: Chats, ws: Socket, chat: string)
    requires chat !in chats
    ensures Disconnect(Connect(chats, ws, chat), ws, chat) == Ok(chats)
  {
    var connected := chats[chat := [ws]];
    assert SocketsOf(chats, chat) + [ws] == [ws];
    assert Connect(chats, ws, chat) == connected;
    assert RemoveFirst([ws], ws) == [];
    assert Disconnect(connected, ws, chat) == Ok(connected - {chat});
    AddThenDelete(chats, chat, [ws]);
  }

  lemma AddThenDelete(chats: Chats, chat: string, v: seq<Socket>)
    requires chat !in chats
    ensures chats[chat := v] - {chat} == chats
  {
  }

  /** One `send_text(message)` to one socket. */
  datatype Delivery = Delivery(to: Socket, message: string)

  /** `send_personal_message`. */
  function SendPersonal(message: string, ws: Socket): (r: seq<Delivery>)
    ensures |r| == 1 && r[0].to == ws && r[0].message == message
  {
    [Delivery(ws, message)]
  }

  /** `send_message_to_chat`: the message goes to every socket of the chat,
      in the order they connected; an unknown chat gets nothing. */
  function SendToChat(chats: Chats, message: string, chat: string): (r: seq<Delivery>)
    ensures chat !in chats ==> r == []
    ensures |r| == |SocketsOf(chats, chat)|
    ensures forall k :: 0 <= k < |r| ==> r[k] == Delivery(SocketsOf(chats, chat)[k], message)
  {
    Deliveries(SocketsOf(chats, chat), message)
  }

  function Deliveries(sockets: seq<Socket>, message: string): (r: seq<Delivery>)
    ensures |r| == |sockets|
    ensures forall k :: 0 <= k < |r| ==> r[k] == Delivery(sockets[k], message)
  {
    if sockets == [] then [] else [Delivery(sockets[0], message)] + Deliveries(sockets[1..], message)
  }

  /** A socket that connects receives every later message to its chat,
      after the sockets that were there before it, and the other chats'
      deliveries do not change. */
  lemma ConnectedReceives(chats: Chats, ws: Socket, chat: string, message: string)
    ensures SendToChat(Connect(chats, ws, chat), message, chat)
         == SendToChat(chats, message, chat) + [Delivery(ws, message)]
    ensures forall c :: c != chat ==> SendToChat(Connect(chats, ws, chat), message, c) == SendToChat(chats, message, c)
  {
    var r := SendToChat(Connect(chats, ws, chat), message, chat);
    var s := SendToChat(chats, message, chat) + [Delivery(ws, message)];
    assert |r| == |s|;
    forall k | 0 <= k < |r|
      ensures r[k] == s[k]
    {
    }
  }
}
