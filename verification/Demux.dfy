// The client as an interleaved step system: the goroutine that reads from the
// server and routes messages into per-command channels, and the calls that
// register a channel, write a request, read their replies and unregister.
// Looking a channel up and using it are separate steps; operations on the map
// and on a channel are atomic.
module Demux {
  import opened Tables
  import opened Base
  import opened Framing

  // Capacity of every channel
  const BufferSize: nat := 10

  // The table entry of a received command code; nil entries panic on use
  function CommandOf(m: Message): Option<Command> {
    if m.commandCode < 13 then Some(AllCommands[m.commandCode]) else None
  }

  // The commands the client calls, the messages each of them writes, and the
  // replies it reads
  predicate Callable(c: Command) {
    c in {Init, Quit, RequestPubKey, RemoveAddCode, GetAddCode, RequestRelay}
  }

  function Writes(c: Command): nat {
    if c == Quit || c == GetAddCode then 1 else 2
  }

  function Replies(c: Command): nat {
    if c == GetAddCode || c == RequestPubKey then 2 else 1
  }

  function Owes(owed: map<Command, nat>, c: Command): nat {
    if c in owed then owed[c] else 0
  }

  function SetOwed(owed: map<Command, nat>, c: Command, n: nat): (r: map<Command, nat>)
    ensures Owes(r, c) == n
    ensures forall d :: d != c ==> Owes(r, d) == Owes(owed, d)
  {
    owed[c := n]
  }

  // What a call returns: the table entry of its last reply, or its own error
  datatype Outcome = Finished(entry: Option<Error>) | WriteError | NoPemBlock

  datatype Phase =
    | Writing(left: nat)
    | Reading(left: nat)
    | Receiving(left: nat, from: Option<nat>) // blocked on a channel, or on nil
    | Deleting(outcome: Outcome)              // the delete in getResult is next
    | Returning(outcome: Outcome)             // the deferred delete is next

  // `ch` is the channel made on registration, `start` the number of messages
  // looked up before it, `consumed` what the call has read since.
  datatype Call = Call(ch: nat, start: nat, consumed: seq<Message>, phase: Phase)

  datatype Handler =
    | Idle
    | Fetched(m: Message)
    | Sending(ch: nat, m: Message)
    | Registering // handleGetPubKey puts its own channel under GADC,
    | Answering   // writes the key,
    | Unregistering // and deletes the entry
    | Stopped
    | Crashed

  // A channel: the command it was made for, and what is queued in it
  datatype Channel = Channel(owner: Command, queue: seq<Message>)

  datatype Return = Return(command: Command, start: nat, consumed: seq<Message>, outcome: Outcome)

  // Channels are numbered in the order they are made; `looked` lists the
  // messages the handler has looked up, `owed` the replies the server still
  // has to send to the requests it got.
  datatype State = State(
    wire: seq<Message>, looked: seq<Message>, handler: Handler,
    chanMap: map<Command, nat>, channels: seq<Channel>,
    calls: map<Command, Call>, owed: map<Command, nat>,
    addCode: seq<byte>, returned: seq<Return>)

  const Start: State := State([], [], Idle, map[], [], map[], map[], [], [])

  datatype Action =
    | ServerSend(m: Message)
    | Fetch
    | StopReading
    | Dispatch
    | Deliver
    | RegisterOwn
    | AnswerKey
    | DeleteOwn
    | Begin(c: Command)
    | WriteOne(c: Command)
    | FailWrite(c: Command)
    | Lookup(c: Command)
    | Receive(c: Command, pem: bool) // pem: the reply holds a key, if one is expected
    | DeleteEntry(c: Command)
    | Leave(c: Command)

  // A receive returns when the channel it waits on holds a message.
  predicate ReadyToReceive(s: State, c: Command) {
    c in s.calls && s.calls[c].phase.Receiving? && s.calls[c].phase.left > 0 && s.calls[c].phase.from.Some?
    && s.calls[c].phase.from.value < |s.channels| && s.channels[s.calls[c].phase.from.value].queue != []
  }

  predicate Can(s: State, a: Action) {
    s.handler != Crashed &&
    match a
    case ServerSend(_) => true
    case Fetch => s.handler == Idle && s.wire != []
    case StopReading => s.handler == Idle
    case Dispatch => s.handler.Fetched?
    case Deliver => s.handler.Sending? && s.handler.ch < |s.channels| && |s.channels[s.handler.ch].queue| < BufferSize
    case RegisterOwn => s.handler == Registering
    case AnswerKey => s.handler == Answering
    case DeleteOwn => s.handler == Unregistering
    case Begin(c) => Callable(c) && c !in s.calls
    case WriteOne(c) => c in s.calls && s.calls[c].phase.Writing? && s.calls[c].phase.left > 0
    case FailWrite(c) => c in s.calls && s.calls[c].phase.Writing? && s.calls[c].phase.left > 0
    case Lookup(c) => c in s.calls && s.calls[c].phase.Reading? && s.calls[c].phase.left > 0
    case Receive(c, _) => ReadyToReceive(s, c)
    case DeleteEntry(c) => c in s.calls && s.calls[c].phase.Deleting?
    case Leave(c) => c in s.calls && s.calls[c].phase.Returning?
  }

  // delete(m, c): no effect when there is no entry
  function Delete<V>(m: map<Command, V>, c: Command): (r: map<Command, V>)
    ensures forall d :: d in r <==> d in m && d != c
    ensures forall d :: d in r ==> r[d] == m[d]
  {
    m - {c}
  }

  function SetPhase(s: State, c: Command, p: Phase): State
    requires c in s.calls
  {
    s.(calls := s.calls[c := s.calls[c].(phase := p)])
  }

  // What the handler does with a message after looking its command up
  function Routed(chanMap: map<Command, nat>, m: Message): Handler {
    match CommandOf(m)
    case None => Crashed
    case Some(c) => if c in chanMap then Sending(chanMap[c], m) else if c == GetPubKey then Registering else Idle
  }

  function DoDispatch(s: State): State
    requires s.handler.Fetched?
  {
    s.(looked := s.looked + [s.handler.m], handler := Routed(s.chanMap, s.handler.m))
  }

  function MakeChannel(s: State, c: Command): State {
    s.(chanMap := s.chanMap[c := |s.channels|], channels := s.channels + [Channel(c, [])])
  }

  // The last request is written: from now on the server owes the replies.
  function DoLastWrite(s: State, c: Command): State
    requires c in s.calls
  {
    s.(calls := s.calls[c := s.calls[c].(phase := Reading(Replies(c)))],
       owed := SetOwed(s.owed, c, Owes(s.owed, c) + Replies(c)))
  }

  function DoWrite(s: State, c: Command): State
    requires c in s.calls && s.calls[c].phase.Writing?
  {
    if s.calls[c].phase.left > 1 then SetPhase(s, c, Writing(s.calls[c].phase.left - 1)) else DoLastWrite(s, c)
  }

  // Taking the oldest message of a channel: the last reply carries the result,
  // an earlier one the add code or the public key.
  function DoReceive(s: State, c: Command, pem: bool): State
    requires ReadyToReceive(s, c)
  {
    var k := s.calls[c];
    var ch := k.phase.from.value;
    var m := s.channels[ch].queue[0];
    var next :=
      if k.phase.left == 1 then Deleting(Finished(ErrorCodes(m.errorCode)))
      else if c == RequestPubKey && !pem then Returning(NoPemBlock)
      else Reading(k.phase.left - 1);
    s.(channels := s.channels[ch := s.channels[ch].(queue := s.channels[ch].queue[1..])],
       calls := s.calls[c := k.(consumed := k.consumed + [m], phase := next)],
       addCode := if c == GetAddCode && k.phase.left > 1 then m.data else s.addCode)
  }

  function DoServerSend(s: State, m: Message): State {
    var t := s.(wire := s.wire + [m]);
    if CommandOf(m).Some? && Owes(s.owed, CommandOf(m).value) > 0
    then t.(owed := SetOwed(s.owed, CommandOf(m).value, Owes(s.owed, CommandOf(m).value) - 1))
    else t
  }

  function DoDeliver(s: State): State
    requires s.handler.Sending? && s.handler.ch < |s.channels|
  {
    var ch := s.channels[s.handler.ch];
    s.(handler := Idle, channels := s.channels[s.handler.ch := ch.(queue := ch.queue + [s.handler.m])])
  }

  function DoBegin(s: State, c: Command): State {
    MakeChannel(s, c).(calls := s.calls[c := Call(|s.channels|, |s.looked|, [], Writing(Writes(c)))])
  }

  function DoLookup(s: State, c: Command): State
    requires c in s.calls && s.calls[c].phase.Reading?
  {
    SetPhase(s, c, Receiving(s.calls[c].phase.left, if c in s.chanMap then Some(s.chanMap[c]) else None))
  }

  function DoDeleteEntry(s: State, c: Command): State
    requires c in s.calls && s.calls[c].phase.Deleting?
  {
    SetPhase(s, c, Returning(s.calls[c].phase.outcome)).(chanMap := Delete(s.chanMap, c))
  }

  function DoLeave(s: State, c: Command): State
    requires c in s.calls && s.calls[c].phase.Returning?
  {
    s.(calls := Delete(s.calls, c), chanMap := Delete(s.chanMap, c),
       returned := s.returned + [Return(c, s.calls[c].start, s.calls[c].consumed, s.calls[c].phase.outcome)])
  }

  function Do(s: State, a: Action): State
    requires Can(s, a)
  {
    match a
    case ServerSend(m) => DoServerSend(s, m)
    case Fetch => s.(handler := Fetched(s.wire[0]), wire := s.wire[1..])
    case StopReading => s.(handler := Stopped)
    case Dispatch => DoDispatch(s)
    case Deliver => DoDeliver(s)
    case RegisterOwn => MakeChannel(s, GetAddCode).(handler := Answering)
    case AnswerKey => s.(handler := Unregistering)
    case DeleteOwn => s.(handler := Idle, chanMap := Delete(s.chanMap, GetAddCode))
    case Begin(c) => DoBegin(s, c)
    case WriteOne(c) => DoWrite(s, c)
    case FailWrite(c) => SetPhase(s, c, Returning(WriteError))
    case Lookup(c) => DoLookup(s, c)
    case Receive(c, pem) => DoReceive(s, c, pem)
    case DeleteEntry(c) => DoDeleteEntry(s, c)
    case Leave(c) => DoLeave(s, c)
  }

  // Routing

  // The messages of one command, in order
  function Filter(ms: seq<Message>, c: Command): seq<Message> {
    if ms == [] then []
    else Filter(ms[..|ms| - 1], c) + (if CommandOf(ms[|ms| - 1]) == Some(c) then [ms[|ms| - 1]] else [])
  }

  // What the handler is about to send into a channel
  function Pending(handler: Handler, ch: nat): seq<Message> {
    if handler.Sending? && handler.ch == ch then [handler.m] else []
  }

  // Everything on its way through the channel of a call, oldest first
  function InFlight(channels: seq<Channel>, handler: Handler, k: Call): seq<Message> {
    if k.ch < |channels| then k.consumed + channels[k.ch].queue + Pending(handler, k.ch) else []
  }

  function LookedUpSince(looked: seq<Message>, start: nat, c: Command): seq<Message> {
    if start <= |looked| then Filter(looked[start..], c) else []
  }

  // The entry of a call is in the map until one of its deletes has run.
  predicate Registered(p: Phase) {
    !(p.Returning? && p.outcome.Finished?)
  }

  ghost predicate ResultOfReplies(c: Command, consumed: seq<Message>, outcome: Outcome) {
    match outcome
    case Finished(entry) => |consumed| == Replies(c) && entry == ErrorCodes(consumed[Replies(c) - 1].errorCode)
    case WriteError => consumed == []
    case NoPemBlock => c == RequestPubKey && |consumed| == 1
  }

  ghost predicate ProgressOfReplies(c: Command, k: Call) {
    match k.phase
    case Writing(left) => 0 < left && k.consumed == []
    case Reading(left) => 0 < left && |k.consumed| + left == Replies(c)
    case Receiving(left, from) => 0 < left && |k.consumed| + left == Replies(c) && from == Some(k.ch)
    case Deleting(outcome) => outcome.Finished? && ResultOfReplies(c, k.consumed, outcome)
    case Returning(outcome) => ResultOfReplies(c, k.consumed, outcome)
  }

  // A call and its channel: while registered, what it consumed, what is queued
  // and what the handler is sending are, in order, exactly the messages of its
  // command looked up since registration; afterwards they are the first ones.
  ghost predicate CallInv(s: State, c: Command, k: Call) {
    && Callable(c) && k.ch < |s.channels| && s.channels[k.ch].owner == c && k.start <= |s.looked|
    && ProgressOfReplies(c, k)
    && (if Registered(k.phase)
        then
          && c in s.chanMap && s.chanMap[c] == k.ch
          && InFlight(s.channels, s.handler, k) == LookedUpSince(s.looked, k.start, c)
        else InFlight(s.channels, s.handler, k) <= LookedUpSince(s.looked, k.start, c))
    && (c == GetAddCode && k.consumed != [] ==> s.addCode == k.consumed[0].data)
  }

  predicate OwnEntry(handler: Handler) {
    handler.Answering? || handler.Unregistering?
  }

  // Every entry leads to a channel of its command, and belongs to a call or to
  // handleGetPubKey.
  ghost predicate EntriesInv(chanMap: map<Command, nat>, calls: map<Command, Call>, channels: seq<Channel>, own: bool) {
    forall c :: c in chanMap ==>
      && chanMap[c] < |channels| && channels[chanMap[c]].owner == c
      && ((c in calls && Registered(calls[c].phase)) || (c == GetAddCode && own))
  }

  // A message is sent into a channel of its own command only.
  ghost predicate SendingInv(handler: Handler, channels: seq<Channel>) {
    handler.Sending? ==> handler.ch < |channels| && CommandOf(handler.m) == Some(channels[handler.ch].owner)
  }

  ghost predicate QueuesInv(channels: seq<Channel>) {
    forall i :: 0 <= i < |channels| ==> |channels[i].queue| <= BufferSize
  }

  // What finished calls returned follows from the first replies that were
  // looked up after they registered.
  ghost predicate ReturnedInv(returned: seq<Return>, looked: seq<Message>) {
    forall i :: 0 <= i < |returned| ==>
      var r := returned[i];
      && r.start <= |looked|
      && ResultOfReplies(r.command, r.consumed, r.outcome) && r.consumed <= LookedUpSince(looked, r.start, r.command)
  }

  ghost predicate CallsInv(s: State) {
    forall c :: c in s.calls ==> CallInv(s, c, s.calls[c])
  }

  ghost predicate Inv(s: State) {
    && CallsInv(s)
    && EntriesInv(s.chanMap, s.calls, s.channels, OwnEntry(s.handler))
    && SendingInv(s.handler, s.channels)
    && QueuesInv(s.channels)
    && ReturnedInv(s.returned, s.looked)
  }

  // handleGetPubKey replaces or deletes the entry of a registered GADC call.
  predicate Clobbers(s: State, a: Action) {
    (a.RegisterOwn? || a.DeleteOwn?) && GetAddCode in s.calls && Registered(s.calls[GetAddCode].phase)
  }
}
