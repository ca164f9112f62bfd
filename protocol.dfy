/**
 * The voice-chat wire protocol of voice_chat/protocol.py: every frame is a
 * 1-byte type code followed by a payload whose fields are big-endian unsigned
 * integers of fixed width and the bytes they measure. GetMessage reads one
 * frame from a byte stream through successive Recv calls.
 */
module Protocol {
  import opened Wrappers
  import opened Converter

  const MESSAGE_TYPE_SIZE: nat := 1
  const ROOM_TYPE_SIZE: nat := 1
  const ERROR_SIZE: nat := 1
  const CLIENT_NAME_SIZE: nat := 2
  const PORT_SIZE: nat := 2
  const NAMES_LIST_SIZE: nat := 4
  const VOICE_DATA_SIZE: nat := 1024

  // MessageType
  const VOICE: byte := 0
  const CONNECTED: byte := 1
  const DISCONNECTED: byte := 2
  const SHUTDOWN: byte := 3
  const LIST_REQUEST: byte := 4
  const LIST_RESPONSE: byte := 5
  const ROOM_CHANGE: byte := 6
  const GAME_STARTED: byte := 7
  const CONNECTED_RESPONSE: byte := 8

  /** One Message subclass per constructor. */
  datatype Message =
    | Voice(name: string, data: seq<byte>)
    | Connected(name: string)
    | Disconnected(name: string)
    | Shutdown
    | ListRequest
    | ListResponse(names: seq<string>)
    | RoomChange(roomId: nat)
    | GameStarting(port: nat)
    | ConnectedResponse(error: string)

  /** The class attribute message_type of each subclass. */
  function TypeCode(m: Message): (code: byte)
    ensures code <= CONNECTED_RESPONSE
  {
    match m
    case Voice(_, _) => VOICE
    case Connected(_) => CONNECTED
    case Disconnected(_) => DISCONNECTED
    case Shutdown => SHUTDOWN
    case ListRequest => LIST_REQUEST
    case ListResponse(_) => LIST_RESPONSE
    case RoomChange(_) => ROOM_CHANGE
    case GameStarting(_) => GAME_STARTED
    case ConnectedResponse(_) => CONNECTED_RESPONSE
  }

  /** A name fits the 2-byte length prefix that precedes it. */
  predicate NameFits(name: string) {
    |EncodeStr(name)| < Pow256(CLIENT_NAME_SIZE)
  }

  /**
   * The messages that can be built and encoded: VoiceMessage asserts exactly
   * 1024 data bytes, and every other bound is a field width that to_bytes
   * would overflow.
   */
  predicate WellFormed(m: Message) {
    match m
    case Voice(name, data) => NameFits(name) && |data| == VOICE_DATA_SIZE
    case Connected(name) => NameFits(name)
    case Disconnected(name) => NameFits(name)
    case Shutdown => true
    case ListRequest => true
    case ListResponse(names) => NamesEncodable(names) && |EncodeNames(names)| < Pow256(NAMES_LIST_SIZE)
    case RoomChange(roomId) => roomId < Pow256(ROOM_TYPE_SIZE)
    case GameStarting(port) => port < Pow256(PORT_SIZE)
    case ConnectedResponse(error) => |EncodeStr(error)| < Pow256(ERROR_SIZE)
  }

  /** A length-prefixed UTF-8 name. */
  function NameField(name: string): (raw: seq<byte>)
    requires NameFits(name)
    ensures |raw| == CLIENT_NAME_SIZE + |EncodeStr(name)|
  {
    var enc := EncodeStr(name);
    EncodeUInt(|enc|, CLIENT_NAME_SIZE) + enc
  }

  /** What each encode method writes after the type byte. */
  function Payload(m: Message): seq<byte>
    requires WellFormed(m)
  {
    match m
    case Voice(name, data) => NameField(name) + data
    case Connected(name) => NameField(name)
    case Disconnected(name) => NameField(name)
    case Shutdown => []
    case ListRequest => []
    case ListResponse(names) =>
      var names_enc := EncodeNames(names);
      EncodeUInt(|names_enc|, NAMES_LIST_SIZE) + names_enc
    case RoomChange(roomId) => EncodeUInt(roomId, ROOM_TYPE_SIZE)
    case GameStarting(port) => EncodeUInt(port, PORT_SIZE)
    case ConnectedResponse(error) =>
      var enc := EncodeStr(error);
      EncodeUInt(|enc|, ERROR_SIZE) + enc
  }

  /** The encode method of every Message subclass: the 1-byte type code, then the payload. */
  function Encode(m: Message): (raw: seq<byte>)
    requires WellFormed(m)
    ensures |raw| >= MESSAGE_TYPE_SIZE && raw[0] == TypeCode(m)
    ensures m.Voice? ==> |raw| == MESSAGE_TYPE_SIZE + CLIENT_NAME_SIZE + |EncodeStr(m.name)| + VOICE_DATA_SIZE
    ensures m.Shutdown? || m.ListRequest? ==> |raw| == MESSAGE_TYPE_SIZE
  {
    EncodeUInt(TypeCode(m), MESSAGE_TYPE_SIZE) + Payload(m)
  }

  /** CONNECTED and DISCONNECTED frames of the same name differ in the type byte only. */
  lemma ConnectedDisconnectedDiffer(name: string)
    requires NameFits(name)
    ensures Encode(Connected(name))[1..] == Encode(Disconnected(name))[1..]
    ensures Encode(Connected(name))[0] == CONNECTED != DISCONNECTED == Encode(Disconnected(name))[0]
  {
  }

  // ---------------------------------------------------------------------------
  // Reading a frame
  // ---------------------------------------------------------------------------

  /** Why get_message raises instead of returning a message. */
  datatype Failure =
    | UnknownType(code: nat)     // the final `assert False`
    | WrongVoiceSize(size: nat)  // VoiceMessage's assertion on a short read
    | BadText                    // UnicodeDecodeError
    | BadNames                   // the name-list payload does not decode

  /** What one frame read returns and what is left unread in the stream. */
  datatype Reading = Reading(result: Result<Message, Failure>, rest: seq<byte>)

  /** `rest` is what is left of `s` after some prefix has been read. */
  predicate IsSuffix(rest: seq<byte>, s: seq<byte>) {
    |rest| <= |s| && rest == s[|s| - |rest|..]
  }

  lemma SuffixTransitive(a: seq<byte>, b: seq<byte>, c: seq<byte>)
    requires IsSuffix(a, b) && IsSuffix(b, c)
    ensures IsSuffix(a, c)
  {
  }

  /** The bytes recv(n) hands back: at most n, fewer when the stream runs out. */
  function Take(s: seq<byte>, n: nat): (chunk: seq<byte>)
    ensures |chunk| == if n <= |s| then n else |s|
    ensures chunk == s[..|chunk|]
  {
    if n <= |s| then s[..n] else s
  }

  /** The stream left after recv(n). */
  function Drop(s: seq<byte>, n: nat): (rest: seq<byte>)
    ensures Take(s, n) + rest == s
    ensures IsSuffix(rest, s)
  {
    if n <= |s| then s[n..] else []
  }

  /** Reads a length-prefixed UTF-8 string whose prefix has `width` bytes. */
  function ParseText(stream: seq<byte>, width: nat): (r: (Option<string>, seq<byte>))
    ensures IsSuffix(r.1, stream)
  {
    var len := DecodeUInt(Take(stream, width));
    var rest := Drop(stream, width);
    SuffixTransitive(Drop(rest, len), rest, stream);
    (DecodeStr(Take(rest, len)), Drop(rest, len))
  }

  /** The payload of a VOICE frame: the sender's name, then exactly 1024 data bytes. */
  function ParseVoice(body: seq<byte>): (r: Reading)
    ensures IsSuffix(r.rest, body)
  {
    var (name, afterName) := ParseText(body, CLIENT_NAME_SIZE);
    if name.None? then Reading(Failure(BadText), afterName)
    else
      var data := Take(afterName, VOICE_DATA_SIZE);
      var rest := Drop(afterName, VOICE_DATA_SIZE);
      SuffixTransitive(rest, afterName, body);
      if |data| != VOICE_DATA_SIZE then Reading(Failure(WrongVoiceSize(|data|)), rest)
      else Reading(Success(Voice(name.value, data)), rest)
  }

  /** The payload of a LIST_RESPONSE frame: a 4-byte length and the name-list payload. */
  function ParseListResponse(body: seq<byte>): (r: Reading)
    ensures IsSuffix(r.rest, body)
  {
    var len := DecodeUInt(Take(body, NAMES_LIST_SIZE));
    var afterLen := Drop(body, NAMES_LIST_SIZE);
    var rest := Drop(afterLen, len);
    SuffixTransitive(rest, afterLen, body);
    match DecodeNames(Take(afterLen, len))
    case None => Reading(Failure(BadNames), rest)
    case Some(names) => Reading(Success(ListResponse(names)), rest)
  }

  /** The payload that follows type code `code`. */
  function ParseBody(code: nat, body: seq<byte>): (r: Reading)
    ensures IsSuffix(r.rest, body)
  {
    if code == VOICE then ParseVoice(body)
    else if code == CONNECTED || code == DISCONNECTED then
      var (name, rest) := ParseText(body, CLIENT_NAME_SIZE);
      if name.None? then Reading(Failure(BadText), rest)
      else if code == CONNECTED then Reading(Success(Connected(name.value)), rest)
      else Reading(Success(Disconnected(name.value)), rest)
    else if code == LIST_REQUEST then Reading(Success(ListRequest), body)
    else if code == LIST_RESPONSE then ParseListResponse(body)
    else if code == ROOM_CHANGE then
      Reading(Success(RoomChange(DecodeUInt(Take(body, ROOM_TYPE_SIZE)))), Drop(body, ROOM_TYPE_SIZE))
    else if code == SHUTDOWN then Reading(Success(Shutdown), body)
    else if code == GAME_STARTED then
      Reading(Success(GameStarting(DecodeUInt(Take(body, PORT_SIZE)))), Drop(body, PORT_SIZE))
    else if code == CONNECTED_RESPONSE then
      var (error, rest) := ParseText(body, ERROR_SIZE);
      if error.None? then Reading(Failure(BadText), rest)
      else Reading(Success(ConnectedResponse(error.value)), rest)
    else Reading(Failure(UnknownType(code)), body)
  }

  /**
   * get_message over a stream that yields its bytes in order: the frame it
   * returns, or the reason it raises, and the bytes it leaves unread.
   */
  function Parse(stream: seq<byte>): (r: Reading)
    ensures IsSuffix(r.rest, stream)
    ensures stream != [] && stream[0] > CONNECTED_RESPONSE ==>
              r == Reading(Failure(UnknownType(stream[0])), stream[1..])
  {
    var code := DecodeUInt(Take(stream, MESSAGE_TYPE_SIZE));
    var body := Drop(stream, MESSAGE_TYPE_SIZE);
    var r := ParseBody(code, body);
    SuffixTransitive(r.rest, body, stream);
    assert stream != [] ==> Take(stream, MESSAGE_TYPE_SIZE) == [stream[0]] && code == stream[0];
    r
  }

  lemma TakeDropPrefix(a: seq<byte>, b: seq<byte>)
    ensures Take(a + b, |a|) == a && Drop(a + b, |a|) == b
  {
    assert (a + b)[..|a|] == a;
    assert (a + b)[|a|..] == b;
  }

  /** A length field of `width` bytes, then at least that many bytes. */
  lemma ParseTextSplit(prefix: seq<byte>, body: seq<byte>, width: nat)
    requires |prefix| == width && DecodeUInt(prefix) <= |body|
    ensures ParseText(prefix + body, width)
            == (DecodeStr(body[..DecodeUInt(prefix)]), body[DecodeUInt(prefix)..])
  {
    TakeDropPrefix(prefix, body);
  }

  /** A length-prefixed UTF-8 string reads back as itself. */
  lemma ParseTextEncoded(text: string, width: nat, rest: seq<byte>)
    requires |EncodeStr(text)| < Pow256(width)
    ensures ParseText(EncodeUInt(|EncodeStr(text)|, width) + EncodeStr(text) + rest, width)
            == (Some(text), rest)
  {
    var enc := EncodeStr(text);
    var prefix := EncodeUInt(|enc|, width);
    Associative(prefix, enc, rest);
    ParseTextSplit(prefix, enc + rest, width);
    TakeDropPrefix(enc, rest);
    DecodeEncodeStr(text);
  }

  /** The layout Payload gives each kind of message, one fact per constructor. */
  lemma PayloadShape(m: Message)
    requires WellFormed(m)
    ensures m.Voice? ==> TypeCode(m) == VOICE && Payload(m) == NameField(m.name) + m.data
    ensures m.Connected? ==> TypeCode(m) == CONNECTED && Payload(m) == NameField(m.name)
    ensures m.Disconnected? ==> TypeCode(m) == DISCONNECTED && Payload(m) == NameField(m.name)
    ensures m.ListResponse? ==>
              TypeCode(m) == LIST_RESPONSE
              && Payload(m) == EncodeUInt(|EncodeNames(m.names)|, NAMES_LIST_SIZE) + EncodeNames(m.names)
    ensures m.RoomChange? ==> TypeCode(m) == ROOM_CHANGE && Payload(m) == EncodeUInt(m.roomId, ROOM_TYPE_SIZE)
    ensures m.GameStarting? ==> TypeCode(m) == GAME_STARTED && Payload(m) == EncodeUInt(m.port, PORT_SIZE)
    ensures m.ConnectedResponse? ==>
              TypeCode(m) == CONNECTED_RESPONSE
              && Payload(m) == EncodeUInt(|EncodeStr(m.error)|, ERROR_SIZE) + EncodeStr(m.error)
  {
  }

  /** A voice payload reads back as its message, with exactly its bytes consumed. */
  lemma ParseVoiceEncoded(m: Message, rest: seq<byte>)
    requires m.Voice? && WellFormed(m)
    ensures ParseBody(TypeCode(m), Payload(m) + rest) == Reading(Success(m), rest)
  {
    PayloadShape(m);
    Associative(NameField(m.name), m.data, rest);
    ParseTextEncoded(m.name, CLIENT_NAME_SIZE, m.data + rest);
    TakeDropPrefix(m.data, rest);
  }

  /** A name-list payload reads back as its message. */
  lemma ParseListResponseEncoded(m: Message, rest: seq<byte>)
    requires m.ListResponse? && WellFormed(m)
    ensures ParseBody(TypeCode(m), Payload(m) + rest) == Reading(Success(m), rest)
  {
    var payload := EncodeNames(m.names);
    var prefix := EncodeUInt(|payload|, NAMES_LIST_SIZE);
    PayloadShape(m);
    Associative(prefix, payload, rest);
    TakeDropPrefix(prefix, payload + rest);
    TakeDropPrefix(payload, rest);
    DecodeEncodeNames(m.names);
  }

  /** A CONNECTED or DISCONNECTED payload reads back as its message. */
  lemma ParseNamedEncoded(m: Message, rest: seq<byte>)
    requires (m.Connected? || m.Disconnected?) && WellFormed(m)
    ensures ParseBody(TypeCode(m), Payload(m) + rest) == Reading(Success(m), rest)
  {
    PayloadShape(m);
    ParseTextEncoded(m.name, CLIENT_NAME_SIZE, rest);
  }

  /** A CONNECTED_RESPONSE body whose error text reads back yields that message. */
  lemma ParseErrorBody(body: seq<byte>, error: string, rest: seq<byte>)
    requires ParseText(body, ERROR_SIZE) == (Some(error), rest)
    ensures ParseBody(CONNECTED_RESPONSE, body) == Reading(Success(ConnectedResponse(error)), rest)
  {
  }

  /** A CONNECTED_RESPONSE payload, whose error length fits one byte, reads back as its message. */
  lemma ParseErrorEncoded(m: Message, rest: seq<byte>)
    requires m.ConnectedResponse? && WellFormed(m)
    ensures ParseBody(TypeCode(m), Payload(m) + rest) == Reading(Success(m), rest)
  {
    PayloadShape(m);
    ParseTextEncoded(m.error, ERROR_SIZE, rest);
    ParseErrorBody(Payload(m) + rest, m.error, rest);
  }

  /** A one-byte room id reads back. */
  lemma ParseRoomEncoded(m: Message, rest: seq<byte>)
    requires m.RoomChange? && WellFormed(m)
    ensures ParseBody(TypeCode(m), Payload(m) + rest) == Reading(Success(m), rest)
  {
    PayloadShape(m);
    TakeDropPrefix(EncodeUInt(m.roomId, ROOM_TYPE_SIZE), rest);
  }

  /** A two-byte port reads back. */
  lemma ParsePortEncoded(m: Message, rest: seq<byte>)
    requires m.GameStarting? && WellFormed(m)
    ensures ParseBody(TypeCode(m), Payload(m) + rest) == Reading(Success(m), rest)
  {
    PayloadShape(m);
    TakeDropPrefix(EncodeUInt(m.port, PORT_SIZE), rest);
  }

  /** The payload of every well-formed message reads back as that message. */
  lemma ParseBodyEncoded(m: Message, rest: seq<byte>)
    requires WellFormed(m)
    ensures ParseBody(TypeCode(m), Payload(m) + rest) == Reading(Success(m), rest)
  {
    match m
    case Voice(_, _) => ParseVoiceEncoded(m, rest);
    case Connected(_) => ParseNamedEncoded(m, rest);
    case Disconnected(_) => ParseNamedEncoded(m, rest);
    case Shutdown =>
    case ListRequest =>
    case ListResponse(_) => ParseListResponseEncoded(m, rest);
    case RoomChange(_) => ParseRoomEncoded(m, rest);
    case GameStarting(_) => ParsePortEncoded(m, rest);
    case ConnectedResponse(_) => ParseErrorEncoded(m, rest);
  }

  /**
   * The protocol round trip: get_message over the encoding of m, followed by
   * anything, returns m and leaves exactly what followed.
   */
  lemma ParseEncoded(m: Message, rest: seq<byte>)
    requires WellFormed(m)
    ensures Parse(Encode(m) + rest) == Reading(Success(m), rest)
  {
    var header := EncodeUInt(TypeCode(m), MESSAGE_TYPE_SIZE);
    var body := Payload(m) + rest;
    Associative(header, Payload(m), rest);
    TakeDropPrefix(header, body);
    ParseBodyEncoded(m, rest);
  }

  /** The socket as the tests' MockSocket drives it: recv consumes a prefix of the pending bytes. */
  class Socket {
    var data: seq<byte>

    constructor (data: seq<byte>)
      ensures this.data == data
    {
      this.data := data;
    }

    method Recv(length: nat) returns (chunk: seq<byte>)
      modifies this
      ensures chunk == Take(old(data), length) && data == Drop(old(data), length)
    {
      chunk := Take(data, length);
      data := Drop(data, length);
    }
  }

  /** Reads a length-prefixed UTF-8 string from the socket, as the name and error fields are read. */
  method RecvText(sock: Socket, width: nat) returns (text: Option<string>)
    modifies sock
    ensures (text, sock.data) == ParseText(old(sock.data), width)
  {
    var rawLen := sock.Recv(width);
    var raw := sock.Recv(DecodeUInt(rawLen));
    text := DecodeStr(raw);
  }

  /** get_message: reads one frame through successive recv calls. */
  method GetMessage(sock: Socket) returns (r: Result<Message, Failure>)
    modifies sock
    ensures Reading(r, sock.data) == Parse(old(sock.data))
  {
    var rawType := sock.Recv(MESSAGE_TYPE_SIZE);
    var code := DecodeUInt(rawType);
    if code == VOICE {
      var name := RecvText(sock, CLIENT_NAME_SIZE);
      if name.None? {
        return Failure(BadText);
      }
      var data := sock.Recv(VOICE_DATA_SIZE);
      if |data| != VOICE_DATA_SIZE {
        return Failure(WrongVoiceSize(|data|));
      }
      r := Success(Voice(name.value, data));
    } else if code == CONNECTED {
      var name := RecvText(sock, CLIENT_NAME_SIZE);
      r := if name.None? then Failure(BadText) else Success(Connected(name.value));
    } else if code == DISCONNECTED {
      var name := RecvText(sock, CLIENT_NAME_SIZE);
      r := if name.None? then Failure(BadText) else Success(Disconnected(name.value));
    } else if code == LIST_REQUEST {
      r := Success(ListRequest);
    } else if code == LIST_RESPONSE {
      var rawLen := sock.Recv(NAMES_LIST_SIZE);
      var raw := sock.Recv(DecodeUInt(rawLen));
      var names := DecodeNames(raw);
      r := if names.None? then Failure(BadNames) else Success(ListResponse(names.value));
    } else if code == ROOM_CHANGE {
      var raw := sock.Recv(ROOM_TYPE_SIZE);
      r := Success(RoomChange(DecodeUInt(raw)));
    } else if code == SHUTDOWN {
      r := Success(Shutdown);
    } else if code == GAME_STARTED {
      var raw := sock.Recv(PORT_SIZE);
      r := Success(GameStarting(DecodeUInt(raw)));
    } else if code == CONNECTED_RESPONSE {
      var error := RecvText(sock, ERROR_SIZE);
      r := if error.None? then Failure(BadText) else Success(ConnectedResponse(error.value));
    } else {
      r := Failure(UnknownType(code));
    }
  }
}
