/**
 The file transfer of 03_file-transfer: the server offers its buffer, the client writes the file name, then chunk
 after chunk, then an empty write; the server answers each write with READY and the last with DONE.
 */
module FileTransfer {
  import opened ByteOrder
  import opened Common

  const BUFFER_SIZE: nat := 10 * 1024 * 1024
  const MAX_FILE_NAME: nat := 256

  datatype MsgId = Invalid | Mr | Ready | Done

  /** struct message: the address and key are meaningful for Mr only. */
  datatype Message = Message(id: MsgId, addr: nat, rkey: nat)

  /** Work a handler performs after its own computation, in order. */
  datatype Work =
    | Write(len: nat, addr: nat, rkey: nat)
    | PostRecv
    | SetMsg(id: MsgId)
    | Send
    | Disconnect

  /** memcpy to the front of a buffer. */
  function Overlay(buf: seq<Byte>, data: seq<Byte>): seq<Byte>
    requires |data| <= |buf|
  {
    data + buf[|data|..]
  }

  // ---------------------------------------------------------------------------------------------
  // Client handler
  // ---------------------------------------------------------------------------------------------

  /** The client's context: chunk buffer, message buffer, the server's region, and the file position. */
  datatype Client = Client(buffer: seq<Byte>, msg: Message, addr: nat, rkey: nat, pos: nat)

  /** What read() may answer at position pos: the end of file gives 0, otherwise any positive amount that fits. */
  predicate ReadAnswer(file: seq<Byte>, pos: nat, n: nat) {
    && pos + n <= |file| && n <= BUFFER_SIZE
    && (n == 0 <==> pos == |file|)
  }

  function ClientHandle(c: Client, name: seq<Byte>, file: seq<Byte>, n: nat): (Client, seq<Work>)
    requires |c.buffer| == BUFFER_SIZE && |name| < BUFFER_SIZE && ReadAnswer(file, c.pos, n)
  {
    match c.msg.id
    case Mr =>
      (c.(addr := c.msg.addr, rkey := c.msg.rkey, buffer := Overlay(c.buffer, name + [0])),
       [Write(|name| + 1, c.msg.addr, c.msg.rkey), PostRecv])
    case Ready =>
      (c.(buffer := Overlay(c.buffer, file[c.pos..c.pos + n]), pos := c.pos + n),
       [Write(n, c.addr, c.rkey), PostRecv])
    case Done => (c, [Disconnect])
    case Invalid => (c, [PostRecv])
  }

  class ClientContext {
    const buffer: array<Byte>
    const fileName: seq<Byte>
    const file: seq<Byte>
    var msg: Message
    var peerAddr: nat
    var peerRkey: nat
    var pos: nat

    ghost predicate Valid() reads this {
      buffer.Length == BUFFER_SIZE && |fileName| < BUFFER_SIZE && pos <= |file|
    }

    ghost function State(): Client reads this, buffer {
      Client(buffer[..], msg, peerAddr, peerRkey, pos)
    }

    /** write_remote: the work request handed to the device. */
    method WriteRemote(len: nat) returns (w: Work)
      ensures w == Write(len, peerAddr, peerRkey)
    {
      w := Write(len, peerAddr, peerRkey);
    }

    method SendFileName() returns (w: Work)
      requires Valid()
      modifies buffer
      ensures buffer[..] == Overlay(old(buffer[..]), fileName + [0])
      ensures w == Write(|fileName| + 1, peerAddr, peerRkey)
    {
      forall i | 0 <= i < |fileName| {
        buffer[i] := fileName[i];
      }
      buffer[|fileName|] := 0;
      w := WriteRemote(|fileName| + 1);
    }

    method SendNextChunk(n: nat) returns (w: Work)
      requires Valid() && ReadAnswer(file, pos, n)
      modifies this`pos, buffer
      ensures pos == old(pos) + n
      ensures buffer[..] == Overlay(old(buffer[..]), file[old(pos)..old(pos) + n])
      ensures w == Write(n, peerAddr, peerRkey)
    {
      forall i | 0 <= i < n {
        buffer[i] := file[pos + i];
      }
      pos := pos + n;
      w := WriteRemote(n);
    }

    /** on_completion for a receive; n is the answer of read(), used only for READY. */
    method OnReceive(n: nat) returns (work: seq<Work>)
      requires Valid() && ReadAnswer(file, pos, n)
      modifies this, buffer
      ensures Valid()
      ensures (State(), work) == ClientHandle(old(State()), fileName, file, n)
      ensures old(msg).id != Done ==> work != [] && work[|work| - 1] == PostRecv
    {
      work := [];
      if msg.id == Mr {
        peerAddr, peerRkey := msg.addr, msg.rkey;
        var w := SendFileName();
        work := [w];
      } else if msg.id == Ready {
        var w := SendNextChunk(n);
        work := [w];
      } else if msg.id == Done {
        return [Disconnect];
      }
      work := work + [PostRecv];
      assert work == ClientHandle(old(State()), fileName, file, n).1;
      assert State() == ClientHandle(old(State()), fileName, file, n).0;
    }
  }

  // ---------------------------------------------------------------------------------------------
  // Server handler
  // ---------------------------------------------------------------------------------------------

  /** A connection's context: data buffer, message buffer, the file-name array and the bytes written to the file. */
  datatype Server = Server(buffer: seq<Byte>, msg: Message, name: seq<Byte>, file: seq<Byte>)

  predicate HasName(s: Server) { s.name != [] && s.name[0] != 0 }

  function ServerHandle(s: Server, size: nat): (Server, seq<Work>)
    requires |s.buffer| == BUFFER_SIZE && |s.name| == MAX_FILE_NAME && size <= BUFFER_SIZE
  {
    if size == 0 then (s, [SetMsg(Done), Send])
    else if HasName(s) then (s.(file := s.file + s.buffer[..size]), [PostRecv, SetMsg(Ready), Send])
    else
      var n := Min(size, MAX_FILE_NAME);
      (s.(name := Overlay(s.name, s.buffer[..n - 1] + [0])), [PostRecv, SetMsg(Ready), Send])
  }

  class ServerContext {
    const buffer: array<Byte>
    const fileName: array<Byte>
    var msg: Message
    var file: seq<Byte>

    ghost predicate Valid() {
      buffer.Length == BUFFER_SIZE && fileName.Length == MAX_FILE_NAME && buffer != fileName
    }

    ghost function State(): Server reads this, buffer, fileName {
      Server(buffer[..], msg, fileName[..], file)
    }

    /** on_completion for a write with immediate data `size`. */
    method OnWrite(size: nat) returns (work: seq<Work>)
      requires Valid() && size <= BUFFER_SIZE
      modifies this, fileName
      ensures State() == ServerHandle(old(State()), size).0
      ensures work == ServerHandle(old(State()), size).1
    {
      if size == 0 {
        work := [SetMsg(Done), Send];
      } else if fileName[0] != 0 {
        file := file + buffer[..size];
        assert buffer[..][..size] == buffer[..size];
        work := [PostRecv, SetMsg(Ready), Send];
      } else {
        var n := if size > MAX_FILE_NAME then MAX_FILE_NAME else size;
        forall i | 0 <= i < n {
          fileName[i] := buffer[i];
        }
        fileName[n - 1] := 0;
        assert fileName[..] == Overlay(old(fileName[..]), buffer[..][..n - 1] + [0]);
        work := [PostRecv, SetMsg(Ready), Send];
      }
    }
  }

  // ---------------------------------------------------------------------------------------------
  // One connection
  // ---------------------------------------------------------------------------------------------

  /** What is transferred, and the address and key of the server's registered buffer. */
  datatype Job = Job(name: seq<Byte>, file: seq<Byte>, addr: nat, rkey: nat)

  predicate GoodJob(j: Job) {
    0 < |j.name| < BUFFER_SIZE && forall i :: 0 <= i < |j.name| ==> j.name[i] != 0
  }

  /** Both contexts, the work their handlers still have to do, requests in flight, posted receives, unpolled
      completions, the READY messages announced, the non-empty reads made, and the log of all announced messages.
      A message or write in flight is read from its sender's buffer when it is delivered. */
  datatype State = State(
    client: Client, server: Server,
    clientWork: seq<Work>, serverWork: seq<Work>,
    writes: seq<Work>, sends: nat,
    clientRecvs: nat, serverRecvs: nat,
    clientCq: nat, serverCq: seq<nat>,
    disconnected: bool, rounds: nat, chunks: nat, log: seq<MsgId>)

  datatype Step = ClientWork | ServerWork | DeliverWrite | DeliverMsg | ClientPoll(n: nat) | ServerPoll

  predicate Sizes(st: State) {
    |st.client.buffer| == BUFFER_SIZE && |st.server.buffer| == BUFFER_SIZE && |st.server.name| == MAX_FILE_NAME
  }

  /** Both sides have run their pre-connection callback, the server its connection callback; buffers hold anything. */
  predicate IsInit(j: Job, st: State) {
    && Sizes(st) && st.server.name[0] == 0 && st.server.file == [] && st.client.pos == 0
    && st.clientWork == [] && st.serverWork == [SetMsg(Mr), Send]
    && st.writes == [] && st.sends == 0 && st.clientRecvs == 1 && st.serverRecvs == 1
    && st.clientCq == 0 && st.serverCq == [] && !st.disconnected && st.rounds == 0 && st.chunks == 0 && st.log == []
  }

  predicate Enabled(j: Job, st: State, s: Step) {
    && Sizes(st) && |j.name| < BUFFER_SIZE
    && match s
       case ClientWork => st.clientWork != []
       case ServerWork => st.serverWork != []
       case DeliverWrite =>
         && st.writes != [] && st.writes[0].Write? && st.serverRecvs > 0
         && st.writes[0].addr == j.addr && st.writes[0].rkey == j.rkey && st.writes[0].len <= BUFFER_SIZE
       case DeliverMsg => st.sends > 0 && st.clientRecvs > 0
       case ClientPoll(n) =>
         st.clientCq > 0 && st.clientWork == [] && !st.disconnected && ReadAnswer(j.file, st.client.pos, n)
       case ServerPoll => st.serverCq != [] && st.serverWork == [] && st.serverCq[0] <= BUFFER_SIZE
  }

  function DoClientWork(st: State): State
    requires st.clientWork != []
  {
    var v := st.(clientWork := st.clientWork[1..]);
    match st.clientWork[0]
    case Write(_, _, _) => v.(writes := st.writes + [st.clientWork[0]])
    case PostRecv => v.(clientRecvs := st.clientRecvs + 1)
    case Disconnect => v.(disconnected := true)
    case _ => v
  }

  function DoServerWork(j: Job, st: State): State
    requires st.serverWork != []
  {
    var v := st.(serverWork := st.serverWork[1..]);
    match st.serverWork[0]
    case PostRecv => v.(serverRecvs := st.serverRecvs + 1)
    case SetMsg(Mr) => v.(server := st.server.(msg := Message(Mr, j.addr, j.rkey)), log := st.log + [Mr])
    case SetMsg(id) =>
      v.(server := st.server.(msg := st.server.msg.(id := id)), log := st.log + [id],
         rounds := st.rounds + if id == Ready then 1 else 0)
    case Send => v.(sends := st.sends + 1)
    case _ => v
  }

  function Next(j: Job, st: State, s: Step): State
    requires Enabled(j, st, s)
  {
    match s
    case ClientWork => DoClientWork(st)
    case ServerWork => DoServerWork(j, st)
    case DeliverWrite =>
      var len := st.writes[0].len;
      st.(writes := st.writes[1..], serverRecvs := st.serverRecvs - 1, serverCq := st.serverCq + [len],
          server := st.server.(buffer := Overlay(st.server.buffer, st.client.buffer[..len])))
    case DeliverMsg =>
      st.(sends := st.sends - 1, clientRecvs := st.clientRecvs - 1, clientCq := st.clientCq + 1,
          client := st.client.(msg := st.server.msg))
    case ClientPoll(n) =>
      var (c, work) := ClientHandle(st.client, j.name, j.file, n);
      st.(client := c, clientWork := work, clientCq := st.clientCq - 1,
          chunks := st.chunks + if st.client.msg.id == Ready && n > 0 then 1 else 0)
    case ServerPoll =>
      var (v, work) := ServerHandle(st.server, st.serverCq[0]);
      st.(server := v, serverWork := work, serverCq := st.serverCq[1..])
  }

  /** The states `trace` visits when the steps of `run` are taken from an initial state. */
  ghost predicate IsTrace(j: Job, trace: seq<State>, run: seq<Step>) {
    && |trace| == |run| + 1
    && IsInit(j, trace[0])
    && forall i :: 0 <= i < |run| ==> Enabled(j, trace[i], run[i]) && trace[i + 1] == Next(j, trace[i], run[i])
  }

  // ---------------------------------------------------------------------------------------------
  // The invariant
  // ---------------------------------------------------------------------------------------------

  /** Where the one token of the protocol is. */
  datatype Place =
    | ServerBusy      // the server's handler is preparing a message
    | MsgInFlight
    | MsgUnread
    | ClientBusy      // the client's handler is about to post a write
    | WriteInFlight
    | WriteUnread
    | Over            // the client has seen DONE

  predicate IsWrite(j: Job, w: Work) { w.Write? && w.addr == j.addr && w.rkey == j.rkey }

  ghost predicate At(j: Job, st: State, p: Place) {
    && (st.serverWork != [] <==> p == ServerBusy)
    && st.sends == (if p == MsgInFlight then 1 else 0)
    && st.clientCq == (if p == MsgUnread then 1 else 0)
    && |st.writes| == (if p == WriteInFlight then 1 else 0)
    && |st.serverCq| == (if p == WriteUnread then 1 else 0)
    && (p == ClientBusy <==> |st.clientWork| == 2)
    && (p == ClientBusy ==> IsWrite(j, st.clientWork[0]) && st.clientWork[1] == PostRecv)
    && (p == WriteInFlight ==> IsWrite(j, st.writes[0]))
    && (p == MsgUnread ==> st.clientWork == [])
    && (p == Over ==> (if st.disconnected then st.clientWork == [] else st.clientWork == [Disconnect]))
    && (p != Over ==> !st.disconnected && (p != ClientBusy ==> st.clientWork == [] || st.clientWork == [PostRecv]))
  }

  function PlaceOf(st: State): Place {
    if st.serverWork != [] then ServerBusy
    else if st.sends > 0 then MsgInFlight
    else if st.clientCq > 0 then MsgUnread
    else if |st.clientWork| == 2 then ClientBusy
    else if st.writes != [] then WriteInFlight
    else if st.serverCq != [] then WriteUnread
    else Over
  }

  /** Whether the server's handler has still to store the identifier of the message it prepares. */
  predicate Unannounced(st: State) {
    |st.serverWork| >= 2 && st.serverWork[|st.serverWork| - 2].SetMsg?
  }

  /** The message on its way to the client. */
  function Pending(st: State): MsgId {
    if Unannounced(st) then st.serverWork[|st.serverWork| - 2].id
    else if st.clientCq > 0 then st.client.msg.id
    else st.server.msg.id
  }

  predicate ServerShape(st: State) {
    || st.serverWork == []
    || st.serverWork == [Send]
    || (Unannounced(st) && st.serverWork == [SetMsg(Pending(st)), Send])
    || st.serverWork == [PostRecv, SetMsg(Ready), Send]
  }

  /** Everything the client has read so far. */
  function AlreadyRead(j: Job, st: State): seq<Byte> { j.file[..Min(st.client.pos, |j.file|)] }

  predicate Fresh(st: State) {
    st.client.pos == 0 && st.server.file == [] && !HasName(st.server) && st.rounds == 0 && st.chunks == 0
  }

  predicate Named(j: Job, st: State) {
    HasName(st.server) && CStr(st.server.name, 0) == j.name[..Min(|j.name|, MAX_FILE_NAME - 1)]
  }

  predicate Keys(j: Job, c: Client) { c.addr == j.addr && c.rkey == j.rkey }

  predicate MsgOk(j: Job, st: State) {
    var id := Pending(st);
    && (id == Mr ==> Fresh(st))
    && (id == Ready || id == Done ==>
          && Named(j, st) && Keys(j, st.client)
          && st.server.file == AlreadyRead(j, st)
          && st.rounds == st.chunks + if id == Ready && Unannounced(st) then 0 else 1)
    && (id == Done ==> st.client.pos == |j.file|)
    && id != Invalid
    && (id == Mr && !Unannounced(st) ==>
          var m := if st.clientCq > 0 then st.client.msg else st.server.msg; m == Message(Mr, j.addr, j.rkey))
  }

  /** A write of `len` bytes from the front of `buf` on its way to the server's handler. */
  predicate WriteOk(j: Job, st: State, len: nat, buf: seq<Byte>) {
    && len <= BUFFER_SIZE == |buf|
    && Keys(j, st.client)
    && if HasName(st.server) then
         && Named(j, st)
         && st.server.file + buf[..len] == AlreadyRead(j, st)
         && (if len == 0 then st.client.pos == |j.file| && st.rounds == st.chunks + 1 else st.rounds == st.chunks)
       else
         Fresh(st) && len == |j.name| + 1 && buf[..len] == j.name + [0]
  }

  predicate OverOk(j: Job, st: State) {
    && Named(j, st) && st.server.file == j.file && st.client.pos == |j.file| && st.rounds == st.chunks + 1
  }

  predicate DataOk(j: Job, st: State)
    requires Sizes(st) && st.client.pos <= |j.file|
    requires PlaceOf(st) == ClientBusy ==> st.clientWork[0].Write?
    requires PlaceOf(st) == WriteInFlight ==> st.writes[0].Write?
  {
    match PlaceOf(st)
    case ClientBusy => WriteOk(j, st, st.clientWork[0].len, st.client.buffer)
    case WriteInFlight => WriteOk(j, st, st.writes[0].len, st.client.buffer)
    case WriteUnread => WriteOk(j, st, st.serverCq[0], st.server.buffer)
    case Over => OverOk(j, st)
    case _ => MsgOk(j, st)
  }

  /** Receives posted on each side, from the token's place. */
  predicate RecvsOk(st: State) {
    var p := PlaceOf(st);
    && st.serverRecvs ==
         (if p == WriteUnread || p == Over || (st.serverWork != [] && st.serverWork[0] == PostRecv)
             || ((p == ServerBusy || p == MsgInFlight || p == MsgUnread) && Pending(st) == Done) then 0 else 1)
    && st.clientRecvs == (if p == MsgUnread || p == Over || st.clientWork != [] then 0 else 1)
  }

  ghost predicate Inv(j: Job, st: State) {
    && Sizes(st) && st.client.pos <= |j.file|
    && At(j, st, PlaceOf(st))
    && ServerShape(st)
    && RecvsOk(st)
    && DataOk(j, st)
  }

  lemma InitInv(j: Job, st: State)
    requires IsInit(j, st)
    ensures Inv(j, st)
  {
    assert Unannounced(st);
  }

  lemma ClientWriteInv(j: Job, st: State)
    requires GoodJob(j) && Inv(j, st) && Enabled(j, st, ClientWork) && st.clientWork[0].Write?
    ensures Inv(j, Next(j, st, ClientWork))
  {
    var st' := Next(j, st, ClientWork);
    assert Unannounced(st') == Unannounced(st) && Pending(st') == Pending(st);
    assert PlaceOf(st) == ClientBusy && PlaceOf(st') == WriteInFlight;
  }

  lemma ClientRearmInv(j: Job, st: State)
    requires GoodJob(j) && Inv(j, st) && Enabled(j, st, ClientWork) && st.clientWork[0] == PostRecv
    ensures Inv(j, Next(j, st, ClientWork))
  {
    var st' := Next(j, st, ClientWork);
    assert st.clientWork == [PostRecv] && PlaceOf(st') == PlaceOf(st);
    assert Unannounced(st') == Unannounced(st) && Pending(st') == Pending(st);
    assert DataOk(j, st');
  }

  lemma ClientLeaveInv(j: Job, st: State)
    requires GoodJob(j) && Inv(j, st) && Enabled(j, st, ClientWork) && st.clientWork[0] == Disconnect
    ensures Inv(j, Next(j, st, ClientWork))
  {
    assert PlaceOf(st) == PlaceOf(Next(j, st, ClientWork)) == Over;
  }

  lemma ClientWorkInv(j: Job, st: State)
    requires GoodJob(j) && Inv(j, st) && Enabled(j, st, ClientWork)
    ensures Inv(j, Next(j, st, ClientWork))
  {
    match st.clientWork[0]
    case Write(_, _, _) => ClientWriteInv(j, st);
    case PostRecv => ClientRearmInv(j, st);
    case Disconnect => ClientLeaveInv(j, st);
    case SetMsg(_) => assert false;
    case Send => assert false;
  }

  lemma ServerSendInv(j: Job, st: State)
    requires GoodJob(j) && Inv(j, st) && Enabled(j, st, ServerWork) && |st.serverWork| == 1
    ensures Inv(j, Next(j, st, ServerWork))
  {
    assert PlaceOf(Next(j, st, ServerWork)) == MsgInFlight;
  }

  lemma ServerSetMsgInv(j: Job, st: State)
    requires GoodJob(j) && Inv(j, st) && Enabled(j, st, ServerWork) && |st.serverWork| == 2
    ensures Inv(j, Next(j, st, ServerWork))
  {
    assert Next(j, st, ServerWork).serverWork == [Send];
  }

  lemma ServerRearmInv(j: Job, st: State)
    requires GoodJob(j) && Inv(j, st) && Enabled(j, st, ServerWork) && |st.serverWork| == 3
    ensures Inv(j, Next(j, st, ServerWork))
  {
    assert Next(j, st, ServerWork).serverWork == [SetMsg(Ready), Send];
  }

  lemma ServerWorkInv(j: Job, st: State)
    requires GoodJob(j) && Inv(j, st) && Enabled(j, st, ServerWork)
    ensures Inv(j, Next(j, st, ServerWork))
  {
    match |st.serverWork|
    case 1 => ServerSendInv(j, st);
    case 2 => ServerSetMsgInv(j, st);
    case _ => ServerRearmInv(j, st);
  }

  lemma DeliverWriteInv(j: Job, st: State)
    requires GoodJob(j) && Inv(j, st) && Enabled(j, st, DeliverWrite)
    ensures Inv(j, Next(j, st, DeliverWrite))
  {
    var st' := Next(j, st, DeliverWrite);
    var len := st.writes[0].len;
    assert st'.server.buffer[..len] == st.client.buffer[..len];
  }

  lemma DeliverMsgInv(j: Job, st: State)
    requires GoodJob(j) && Inv(j, st) && Enabled(j, st, DeliverMsg)
    ensures Inv(j, Next(j, st, DeliverMsg))
  {
  }

  lemma ClientMrInv(j: Job, st: State, n: nat)
    requires GoodJob(j) && Inv(j, st) && Enabled(j, st, ClientPoll(n)) && st.client.msg.id == Mr
    ensures Inv(j, Next(j, st, ClientPoll(n)))
  {
    var st' := Next(j, st, ClientPoll(n));
    assert PlaceOf(st) == MsgUnread && PlaceOf(st') == ClientBusy;
    assert st'.client.buffer[..|j.name| + 1] == j.name + [0];
  }

  lemma ClientReadyInv(j: Job, st: State, n: nat)
    requires GoodJob(j) && Inv(j, st) && Enabled(j, st, ClientPoll(n)) && st.client.msg.id == Ready
    ensures Inv(j, Next(j, st, ClientPoll(n)))
  {
    var st' := Next(j, st, ClientPoll(n));
    assert PlaceOf(st) == MsgUnread && PlaceOf(st') == ClientBusy;
    assert st'.client.buffer[..n] == j.file[st.client.pos..st.client.pos + n];
    assert st'.server.file + st'.client.buffer[..n] == j.file[..st.client.pos + n];
  }

  lemma ClientDoneInv(j: Job, st: State, n: nat)
    requires GoodJob(j) && Inv(j, st) && Enabled(j, st, ClientPoll(n)) && st.client.msg.id == Done
    ensures Inv(j, Next(j, st, ClientPoll(n)))
  {
    assert PlaceOf(st) == MsgUnread && PlaceOf(Next(j, st, ClientPoll(n))) == Over;
    assert j.file[..|j.file|] == j.file;
  }

  lemma ClientPollInv(j: Job, st: State, n: nat)
    requires GoodJob(j) && Inv(j, st) && Enabled(j, st, ClientPoll(n))
    ensures Inv(j, Next(j, st, ClientPoll(n)))
  {
    match st.client.msg.id
    case Mr => ClientMrInv(j, st, n);
    case Ready => ClientReadyInv(j, st, n);
    case Done => ClientDoneInv(j, st, n);
    case Invalid => assert false;
  }

  lemma ServerChunkInv(j: Job, st: State)
    requires GoodJob(j) && Inv(j, st) && Enabled(j, st, ServerPoll) && (st.serverCq[0] == 0 || HasName(st.server))
    ensures Inv(j, Next(j, st, ServerPoll))
  {
    assert PlaceOf(st) == WriteUnread && PlaceOf(Next(j, st, ServerPoll)) == ServerBusy;
    assert st.server.file + st.server.buffer[..0] == st.server.file;
  }

  /** The name as the server stores it. */
  lemma NameStored(j: Job, st: State)
    requires GoodJob(j) && Inv(j, st) && Enabled(j, st, ServerPoll) && st.serverCq[0] != 0 && !HasName(st.server)
    ensures Named(j, Next(j, st, ServerPoll))
  {
    var st' := Next(j, st, ServerPoll);
    var size := st.serverCq[0];
    assert PlaceOf(st) == WriteUnread && st.server.buffer[..size] == j.name + [0];
    var n := Min(size, MAX_FILE_NAME);
    var data := st.server.buffer[..n - 1];
    assert data == j.name[..n - 1] by {
      assert st.server.buffer[..size][..n - 1] == data;
    }
    assert st'.server.name == data + ([0] + st.server.name[n..]);
    CStrWhole(data, [0] + st.server.name[n..], 0);
  }

  lemma ServerNameInv(j: Job, st: State)
    requires GoodJob(j) && Inv(j, st) && Enabled(j, st, ServerPoll) && st.serverCq[0] != 0 && !HasName(st.server)
    ensures Inv(j, Next(j, st, ServerPoll))
  {
    NameStored(j, st);
    assert PlaceOf(st) == WriteUnread && PlaceOf(Next(j, st, ServerPoll)) == ServerBusy;
    assert j.file[..0] == [];
  }

  lemma ServerPollInv(j: Job, st: State)
    requires GoodJob(j) && Inv(j, st) && Enabled(j, st, ServerPoll)
    ensures Inv(j, Next(j, st, ServerPoll))
  {
    if st.serverCq[0] == 0 || HasName(st.server) {
      ServerChunkInv(j, st);
    } else {
      ServerNameInv(j, st);
    }
  }

  lemma StepInv(j: Job, st: State, s: Step)
    requires GoodJob(j) && Inv(j, st) && Enabled(j, st, s)
    ensures Inv(j, Next(j, st, s))
  {
    match s
    case ClientWork => ClientWorkInv(j, st);
    case ServerWork => ServerWorkInv(j, st);
    case DeliverWrite => DeliverWriteInv(j, st);
    case DeliverMsg => DeliverMsgInv(j, st);
    case ClientPoll(n) => ClientPollInv(j, st, n);
    case ServerPoll => ServerPollInv(j, st);
  }

  lemma {:induction false} TraceInv(j: Job, trace: seq<State>, run: seq<Step>, k: nat)
    requires GoodJob(j) && IsTrace(j, trace, run) && k < |trace|
    ensures Inv(j, trace[k])
  {
    if k == 0 {
      InitInv(j, trace[0]);
    } else {
      TraceInv(j, trace, run, k - 1);
      StepInv(j, trace[k - 1], run[k - 1]);
    }
  }

  // ---------------------------------------------------------------------------------------------
  // Main results
  // ---------------------------------------------------------------------------------------------

  /** File bytes the client has read but the server has not written: the chunk of the write under way. */
  function InTransit(st: State): seq<Byte> {
    if !Sizes(st) || !HasName(st.server) then []
    else if PlaceOf(st) == ClientBusy && st.clientWork[0].Write? then
      st.client.buffer[..Min(st.clientWork[0].len, BUFFER_SIZE)]
    else if PlaceOf(st) == WriteInFlight && st.writes[0].Write? then
      st.client.buffer[..Min(st.writes[0].len, BUFFER_SIZE)]
    else if PlaceOf(st) == WriteUnread then st.server.buffer[..Min(st.serverCq[0], BUFFER_SIZE)]
    else []
  }

  /** At every moment the server's file and the chunk under way are exactly what the client has read. */
  lemma ContentIsPrefix(j: Job, trace: seq<State>, run: seq<Step>, k: nat)
    requires GoodJob(j) && IsTrace(j, trace, run) && k < |trace|
    ensures trace[k].client.pos <= |j.file|
    ensures trace[k].server.file + InTransit(trace[k]) == j.file[..trace[k].client.pos]
  {
    TraceInv(j, trace, run, k);
    var st := trace[k];
    assert !HasName(st.server) ==> j.file[..0] == [];
    assert st.server.file + [] == st.server.file;
    assert j.file[..|j.file|] == j.file;
  }

  /** When DONE has reached the client, the server holds the whole file under the client's name (cut to 255 bytes). */
  lemma DoneMeansEqual(j: Job, trace: seq<State>, run: seq<Step>, k: nat)
    requires GoodJob(j) && IsTrace(j, trace, run) && k < |trace|
    requires var st := trace[k]; st.disconnected || (st.clientCq > 0 && st.client.msg.id == Done)
    ensures trace[k].server.file == j.file
    ensures CStr(trace[k].server.name, 0) == j.name[..Min(|j.name|, MAX_FILE_NAME - 1)]
  {
    TraceInv(j, trace, run, k);
    assert j.file[..|j.file|] == j.file;
  }

  /** A name of at most 255 bytes arrives whole, a longer one as its first 255 bytes. */
  lemma NameArrives(j: Job, trace: seq<State>, run: seq<Step>, k: nat)
    requires GoodJob(j) && IsTrace(j, trace, run) && k < |trace|
    requires var st := trace[k]; st.disconnected || (st.clientCq > 0 && st.client.msg.id == Done)
    ensures CStr(trace[k].server.name, 0) == if |j.name| <= 255 then j.name else j.name[..255]
  {
    DoneMeansEqual(j, trace, run, k);
    assert j.name[..|j.name|] == j.name;
  }

  /** A step that writes a buffer finds no earlier transfer through it undelivered or unconsumed. */
  ghost predicate Overwrites(st: State, s: Step) {
    match s
    case ClientPoll(_) => st.writes != []                        // fills the client's chunk buffer
    case DeliverWrite => st.serverCq != []                       // fills the server's data buffer
    case ServerWork => st.serverWork != [] && st.serverWork[0].SetMsg? && st.sends > 0  // rewrites the server's message
    case DeliverMsg => st.clientCq > 0                           // fills the client's message
    case _ => false
  }

  /** No buffer is overwritten while needed, and every client write finds a receive posted and a matching region. */
  lemma BuffersAreSafe(j: Job, trace: seq<State>, run: seq<Step>, k: nat, s: Step)
    requires GoodJob(j) && IsTrace(j, trace, run) && k < |trace|
    ensures Enabled(j, trace[k], s) ==> !Overwrites(trace[k], s)
    ensures trace[k].writes != [] ==> Enabled(j, trace[k], DeliverWrite)
  {
    TraceInv(j, trace, run, k);
  }

  /** Until the client has disconnected some step is enabled. */
  lemma Progress(j: Job, st: State) returns (s: Step)
    requires GoodJob(j) && Inv(j, st) && !st.disconnected
    ensures Enabled(j, st, s)
  {
    match PlaceOf(st)
    case ServerBusy => s := ServerWork;
    case MsgInFlight => s := if st.clientWork != [] then ClientWork else DeliverMsg;
    case MsgUnread =>
      var left := |j.file| - st.client.pos;
      s := ClientPoll(Min(left, BUFFER_SIZE));
    case ClientBusy => s := ClientWork;
    case WriteInFlight => s := DeliverWrite;
    case WriteUnread => s := ServerPoll;
    case Over => s := ClientWork;
  }

  /** Handler invocations still to come at the server, at most. */
  function ServerCalls(j: Job, st: State): int {
    var left := |j.file| - st.client.pos;
    match PlaceOf(st)
    case Over => 0
    case ServerBusy => CallsAfter(Pending(st), left)
    case MsgInFlight => CallsAfter(Pending(st), left)
    case MsgUnread => CallsAfter(Pending(st), left)
    case ClientBusy => if st.clientWork[0].Write? then CallsFor(st, st.clientWork[0].len, left) else 0
    case WriteInFlight => if st.writes[0].Write? then CallsFor(st, st.writes[0].len, left) else 0
    case WriteUnread => CallsFor(st, st.serverCq[0], left)
  }

  function CallsAfter(id: MsgId, left: int): int {
    match id case Mr => left + 2 case Ready => left + 1 case _ => 0
  }

  function CallsFor(st: State, len: nat, left: int): int {
    if len == 0 then 1 else left + 2
  }

  function Measure(j: Job, st: State): int {
    12 * ServerCalls(j, st) + |st.clientWork|
    + match PlaceOf(st)
      case ServerBusy => 6 + |st.serverWork|
      case MsgInFlight => 6
      case MsgUnread => 5
      case ClientBusy => 2
      case WriteInFlight => 2
      case WriteUnread => 1
      case Over => 0
  }

  lemma ClientWorkDecreases(j: Job, st: State)
    requires GoodJob(j) && Inv(j, st) && Enabled(j, st, ClientWork)
    ensures Measure(j, Next(j, st, ClientWork)) < Measure(j, st)
  {
    var st' := Next(j, st, ClientWork);
    assert Pending(st') == Pending(st);
    assert PlaceOf(st') == if st.clientWork[0].Write? then WriteInFlight else PlaceOf(st);
  }

  lemma ServerWorkDecreases(j: Job, st: State)
    requires GoodJob(j) && Inv(j, st) && Enabled(j, st, ServerWork)
    ensures Measure(j, Next(j, st, ServerWork)) < Measure(j, st)
  {
    var st' := Next(j, st, ServerWork);
    assert Pending(st') == Pending(st) && st'.client == st.client && st'.clientWork == st.clientWork;
    match |st.serverWork|
    case 1 => assert PlaceOf(st') == MsgInFlight;
    case _ => assert PlaceOf(st') == ServerBusy;
  }

  lemma DeliveryDecreases(j: Job, st: State, s: Step)
    requires GoodJob(j) && Inv(j, st) && Enabled(j, st, s) && (s.DeliverMsg? || s.DeliverWrite?)
    requires Inv(j, Next(j, st, s))
    ensures Measure(j, Next(j, st, s)) < Measure(j, st)
  {
    assert PlaceOf(Next(j, st, s)) == if s.DeliverMsg? then MsgUnread else WriteUnread;
  }

  lemma PollDecreases(j: Job, st: State, s: Step)
    requires GoodJob(j) && Inv(j, st) && Enabled(j, st, s) && (s.ClientPoll? || s.ServerPoll?)
    requires Inv(j, Next(j, st, s))
    ensures Measure(j, Next(j, st, s)) < Measure(j, st)
  {
    if s.ClientPoll? {
      assert PlaceOf(st) == MsgUnread;
      assert PlaceOf(Next(j, st, s)) == if st.client.msg.id == Done then Over else ClientBusy;
    } else {
      assert PlaceOf(st) == WriteUnread && PlaceOf(Next(j, st, s)) == ServerBusy;
    }
  }

  lemma StepDecreases(j: Job, st: State, s: Step)
    requires GoodJob(j) && Inv(j, st) && Enabled(j, st, s)
    ensures Measure(j, Next(j, st, s)) < Measure(j, st)
  {
    StepInv(j, st, s);
    match s
    case ClientWork => ClientWorkDecreases(j, st);
    case ServerWork => ServerWorkDecreases(j, st);
    case DeliverMsg => DeliveryDecreases(j, st, s);
    case DeliverWrite => DeliveryDecreases(j, st, s);
    case ClientPoll(_) => PollDecreases(j, st, s);
    case ServerPoll => PollDecreases(j, st, s);
  }

  lemma {:induction false} TraceBound(j: Job, trace: seq<State>, run: seq<Step>, k: nat)
    requires GoodJob(j) && IsTrace(j, trace, run) && k < |trace|
    ensures Measure(j, trace[k]) <= 12 * |j.file| + 32 - k
  {
    if k > 0 {
      TraceBound(j, trace, run, k - 1);
      TraceInv(j, trace, run, k - 1);
      StepDecreases(j, trace[k - 1], run[k - 1]);
    }
  }

  lemma MeasureNonneg(j: Job, st: State)
    requires Inv(j, st)
    ensures Measure(j, st) >= 0
  {
  }

  /** The transfer ends in every run: the number of steps is bounded by the file length, and a run that cannot
      continue has the client disconnected and the files equal. */
  lemma EveryRunCompletes(j: Job, trace: seq<State>, run: seq<Step>)
    requires GoodJob(j) && IsTrace(j, trace, run)
    ensures |run| <= 12 * |j.file| + 32
    ensures (forall s :: !Enabled(j, trace[|run|], s)) ==>
              trace[|run|].disconnected && trace[|run|].server.file == j.file
  {
    TraceBound(j, trace, run, |run|);
    TraceInv(j, trace, run, |run|);
    if !trace[|run|].disconnected {
      var s := Progress(j, trace[|run|]);
    } else {
      DoneMeansEqual(j, trace, run, |run|);
    }
  }

  /** Every read of the run fills the buffer unless the file ends first. */
  ghost predicate FullReads(j: Job, trace: seq<State>, run: seq<Step>)
    requires IsTrace(j, trace, run)
  {
    forall i :: 0 <= i < |run| && run[i].ClientPoll? && trace[i].client.msg.id == Ready ==>
      run[i].n == Min(BUFFER_SIZE, |j.file| - trace[i].client.pos)
  }

  /** The client's position after as many full chunks as it has read. */
  predicate AtChunk(j: Job, st: State) {
    && st.client.pos == Min(st.chunks * BUFFER_SIZE, |j.file|)
    && (st.chunks > 0 ==> (st.chunks - 1) * BUFFER_SIZE < |j.file|)
  }

  lemma FullReadStep(j: Job, st: State, s: Step)
    requires Enabled(j, st, s) && AtChunk(j, st)
    requires s.ClientPoll? && st.client.msg.id == Ready ==> s.n == Min(BUFFER_SIZE, |j.file| - st.client.pos)
    ensures AtChunk(j, Next(j, st, s))
  {
    match s
    case ClientPoll(n) =>
    case _ => assert Next(j, st, s).client.pos == st.client.pos && Next(j, st, s).chunks == st.chunks;
  }

  lemma {:induction false} FullReadPositions(j: Job, trace: seq<State>, run: seq<Step>, k: nat)
    requires IsTrace(j, trace, run) && FullReads(j, trace, run) && k < |trace|
    ensures AtChunk(j, trace[k])
  {
    if k > 0 {
      FullReadPositions(j, trace, run, k - 1);
      FullReadStep(j, trace[k - 1], run[k - 1]);
    }
  }

  /** The messages announced so far: one Mr, then READYs, then at most one DONE. */
  function Announced(st: State): seq<MsgId> {
    var msgPlace := PlaceOf(st).ServerBusy? || PlaceOf(st).MsgInFlight? || PlaceOf(st).MsgUnread?;
    if msgPlace && Unannounced(st) && Pending(st) == Mr then []
    else
      [Mr] + seq(st.rounds, _ => Ready)
      + if PlaceOf(st).Over? || (msgPlace && !Unannounced(st) && Pending(st) == Done) then [Done] else []
  }

  lemma LogOfSend(j: Job, st: State)
    requires Inv(j, st) && Enabled(j, st, ServerWork) && |st.serverWork| == 1
    ensures Announced(Next(j, st, ServerWork)) == Announced(st)
  {
    assert PlaceOf(st) == ServerBusy && PlaceOf(Next(j, st, ServerWork)) == MsgInFlight;
  }

  lemma LogOfRearm(j: Job, st: State)
    requires Inv(j, st) && Enabled(j, st, ServerWork) && |st.serverWork| == 3
    ensures Announced(Next(j, st, ServerWork)) == Announced(st)
  {
    assert Next(j, st, ServerWork).serverWork == [SetMsg(Ready), Send];
  }

  lemma LogOfSetMsg(j: Job, st: State)
    requires Inv(j, st) && Enabled(j, st, ServerWork) && |st.serverWork| == 2
    ensures Announced(Next(j, st, ServerWork)) == Announced(st) + [st.serverWork[0].id]
    ensures Next(j, st, ServerWork).log == st.log + [st.serverWork[0].id]
  {
    var st' := Next(j, st, ServerWork);
    assert st'.serverWork == [Send] && PlaceOf(st') == PlaceOf(st) == ServerBusy && st'.server.msg.id == Pending(st);
    if Pending(st) == Ready {
      assert seq(st.rounds + 1, _ => Ready) == seq(st.rounds, _ => Ready) + [Ready];
    }
  }

  lemma LogStep(j: Job, st: State)
    requires Inv(j, st) && Enabled(j, st, ServerWork) && st.log == Announced(st)
    ensures Next(j, st, ServerWork).log == Announced(Next(j, st, ServerWork))
  {
    match |st.serverWork|
    case 1 => LogOfSend(j, st);
    case 2 => LogOfSetMsg(j, st);
    case _ => LogOfRearm(j, st);
  }

  lemma SameLogClientWork(j: Job, st: State)
    requires Inv(j, st) && Enabled(j, st, ClientWork)
    ensures Announced(Next(j, st, ClientWork)) == Announced(st)
  {
    assert PlaceOf(Next(j, st, ClientWork)) == if st.clientWork[0].Write? then WriteInFlight else PlaceOf(st);
  }

  lemma SameLogWrite(j: Job, st: State)
    requires Inv(j, st) && Enabled(j, st, DeliverWrite)
    ensures Announced(Next(j, st, DeliverWrite)) == Announced(st)
  {
    assert PlaceOf(Next(j, st, DeliverWrite)) == WriteUnread;
  }

  lemma SameLogMsg(j: Job, st: State)
    requires Inv(j, st) && Enabled(j, st, DeliverMsg)
    ensures Announced(Next(j, st, DeliverMsg)) == Announced(st)
  {
    assert PlaceOf(Next(j, st, DeliverMsg)) == MsgUnread;
  }

  lemma SameLogClientPoll(j: Job, st: State, n: nat)
    requires Inv(j, st) && Enabled(j, st, ClientPoll(n))
    ensures Announced(Next(j, st, ClientPoll(n))) == Announced(st)
  {
    assert PlaceOf(Next(j, st, ClientPoll(n))) == if st.client.msg.id == Done then Over else ClientBusy;
  }

  lemma SameLogServerPoll(j: Job, st: State)
    requires Inv(j, st) && Enabled(j, st, ServerPoll)
    ensures Announced(Next(j, st, ServerPoll)) == Announced(st)
  {
    assert PlaceOf(Next(j, st, ServerPoll)) == ServerBusy;
  }

  lemma SameLog(j: Job, st: State, s: Step)
    requires Inv(j, st) && Enabled(j, st, s) && !s.ServerWork?
    ensures Announced(Next(j, st, s)) == Announced(st)
  {
    match s
    case ClientWork => SameLogClientWork(j, st);
    case DeliverWrite => SameLogWrite(j, st);
    case DeliverMsg => SameLogMsg(j, st);
    case ClientPoll(n) => SameLogClientPoll(j, st, n);
    case ServerPoll => SameLogServerPoll(j, st);
  }

  lemma InitLog(j: Job, st: State)
    requires IsInit(j, st)
    ensures st.log == Announced(st)
  {
    assert Unannounced(st) && PlaceOf(st) == ServerBusy && Pending(st) == Mr;
  }

  lemma AnyLog(j: Job, st: State, s: Step)
    requires GoodJob(j) && Inv(j, st) && Enabled(j, st, s) && st.log == Announced(st)
    ensures Next(j, st, s).log == Announced(Next(j, st, s))
  {
    if s.ServerWork? {
      LogStep(j, st);
    } else {
      SameLog(j, st, s);
      assert Next(j, st, s).log == st.log;
    }
  }

  lemma {:induction false} LogIsAnnounced(j: Job, trace: seq<State>, run: seq<Step>, k: nat)
    requires GoodJob(j) && IsTrace(j, trace, run) && k < |trace|
    ensures trace[k].log == Announced(trace[k])
  {
    if k == 0 {
      InitLog(j, trace[0]);
    } else {
      LogIsAnnounced(j, trace, run, k - 1);
      TraceInv(j, trace, run, k - 1);
      AnyLog(j, trace[k - 1], run[k - 1]);
    }
  }

  /** The number of chunks of 10 MiB, the last one perhaps shorter. */
  function Chunks(length: nat): nat { (length + 10_485_759) / 10_485_760 }

  lemma AllRead(j: Job, st: State)
    requires AtChunk(j, st) && st.client.pos == |j.file|
    ensures st.chunks == Chunks(|j.file|)
  {
  }

  lemma DoneAnnounced(j: Job, st: State)
    requires Inv(j, st) && (st.disconnected || (st.clientCq > 0 && st.client.msg.id == Done))
    ensures Announced(st) == [Mr] + seq(st.rounds, _ => Ready) + [Done]
    ensures st.rounds == st.chunks + 1 && st.client.pos == |j.file|
  {
    assert PlaceOf(st) == if st.disconnected then Over else MsgUnread;
  }

  /** With full reads, the server has announced one MR, ceil(length / BUFFER_SIZE) + 1 READYs and one DONE when the
      client sees DONE. */
  lemma ReadyCount(j: Job, trace: seq<State>, run: seq<Step>, k: nat)
    requires GoodJob(j) && IsTrace(j, trace, run) && FullReads(j, trace, run) && k < |trace|
    requires trace[k].disconnected || (trace[k].clientCq > 0 && trace[k].client.msg.id == Done)
    ensures trace[k].log == [Mr] + seq(Chunks(|j.file|) + 1, _ => Ready) + [Done]
  {
    TraceInv(j, trace, run, k);
    FullReadPositions(j, trace, run, k);
    LogIsAnnounced(j, trace, run, k);
    DoneAnnounced(j, trace[k]);
    AllRead(j, trace[k]);
  }
}
