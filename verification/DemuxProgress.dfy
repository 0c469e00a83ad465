// Progress: when the server answers every request with exactly the replies the
// call reads, and no write, read or key file fails, then no order of steps can
// block the client or leave anything behind.
module DemuxProgress {
  import opened Tables
  import opened Framing
  import opened Demux
  import opened DemuxRouting
  import opened DemuxRuns

  // The steps of such a run: the server only sends what it owes, and asks for
  // this client's key only outside GADC calls; such a call waits until the key
  // was sent.
  predicate Polite(s: State, a: Action) {
    Can(s, a) &&
    match a
    case ServerSend(m) => CommandOf(m).Some? &&
      (Owes(s.owed, CommandOf(m).value) > 0 || (CommandOf(m) == Some(GetPubKey) && GetAddCode !in s.calls))
    case Begin(c) => c == GetAddCode ==> Work(s, GetPubKey) == 0
    case StopReading => false
    case FailWrite(_) => false
    case Receive(_, pem) => pem
    case _ => true
  }

  // What gives the client something new to do
  predicate NewWork(a: Action) {
    a.Begin? || (a.ServerSend? && CommandOf(a.m) == Some(GetPubKey))
  }

  function Count(ms: seq<Message>, c: Command): nat {
    if ms == [] then 0 else (if CommandOf(ms[0]) == Some(c) then 1 else 0) + Count(ms[1..], c)
  }

  lemma {:induction false} CountAppend(ms: seq<Message>, m: Message, c: Command)
    ensures Count(ms + [m], c) == Count(ms, c) + (if CommandOf(m) == Some(c) then 1 else 0)
  {
    if ms == [] {
      assert ms + [m] == [m] && [m][1..] == [];
    } else {
      assert (ms + [m])[1..] == ms[1..] + [m];
      CountAppend(ms[1..], m, c);
    }
  }

  predicate Holds(handler: Handler, c: Command) {
    (handler.Fetched? || handler.Sending?) && CommandOf(handler.m) == Some(c)
  }

  // Replies to a call that have not reached its channel
  function Underway(owed: map<Command, nat>, wire: seq<Message>, handler: Handler, c: Command): nat {
    Owes(owed, c) + Count(wire, c) + (if Holds(handler, c) then 1 else 0)
  }

  // Replies a call still has to receive once its requests are written
  function Due(p: Phase): nat {
    match p
    case Reading(left) => left
    case Receiving(left, _) => left
    case _ => 0
  }

  predicate Failed(p: Phase) {
    (p.Deleting? || p.Returning?) && !p.outcome.Finished?
  }

  // For every call, the replies underway and in its channel are exactly those
  // it still reads; for any other command there is nothing anywhere, except for
  // requests of this client's key and the entry made while answering them.
  ghost predicate Balanced(s: State, c: Command) {
    if c in s.calls then
      && c != GetPubKey
      && s.calls[c].ch < |s.channels|
      && Underway(s.owed, s.wire, s.handler, c) + |s.channels[s.calls[c].ch].queue| == Due(s.calls[c].phase)
      && (s.handler.Sending? && Holds(s.handler, c) ==> s.handler.ch == s.calls[c].ch)
      && !Failed(s.calls[c].phase)
    else
      && (if c == GetPubKey then Owes(s.owed, c) == 0 && (Holds(s.handler, c) ==> s.handler.Fetched?)
          else Underway(s.owed, s.wire, s.handler, c) == 0)
      && (c in s.chanMap ==> c == GetAddCode && OwnEntry(s.handler))
  }

  ghost predicate Known(s: State) {
    && !s.handler.Stopped? && !s.handler.Crashed?
    && (s.handler.Fetched? || s.handler.Sending? ==> CommandOf(s.handler.m).Some?)
    && forall i :: 0 <= i < |s.wire| ==> CommandOf(s.wire[i]).Some?
  }

  // Every call that returned, returned the result of its replies.
  ghost predicate AllFinished(returned: seq<Return>) {
    forall i :: 0 <= i < |returned| ==> returned[i].outcome.Finished?
  }

  // Messages wait only in the channel of a call under way.
  ghost predicate Tidy(calls: map<Command, Call>, channels: seq<Channel>) {
    forall i :: 0 <= i < |channels| && channels[i].queue != [] ==>
      channels[i].owner in calls && calls[channels[i].owner].ch == i
  }

  // No GADC call overlaps the answering of a key request.
  ghost predicate KeysApart(s: State) {
    GetAddCode in s.calls ==> Work(s, GetPubKey) == 0
  }

  ghost predicate Settled(s: State) {
    && Inv(s) && Known(s) && AllFinished(s.returned) && Tidy(s.calls, s.channels) && KeysApart(s)
    && forall c :: Balanced(s, c)
  }

  // The steps left until everything is over: 4 for a reply still owed, 3 for
  // one on the wire, and so on down to the deferred delete of each call; 5 for a
  // request of this client's key on the wire, down to the delete of its entry.

  function TransitWork(owed: map<Command, nat>, wire: seq<Message>, handler: Handler, c: Command): nat {
    4 * Owes(owed, c) + 3 * Count(wire, c) + (if c == GetPubKey then 2 * Count(wire, c) else 0)
    + HandlerWork(handler, c)
  }

  // The steps handleGetPubKey still takes
  function KeyStage(handler: Handler): nat {
    match handler
    case Registering => 3
    case Answering => 2
    case Unregistering => 1
    case _ => 0
  }

  function HandlerWork(handler: Handler, c: Command): nat {
    match handler
    case Fetched(m) => if CommandOf(m) != Some(c) then 0 else if c == GetPubKey then 4 else 2
    case Sending(_, m) => if CommandOf(m) != Some(c) then 0 else 1
    case _ => if c == GetPubKey then KeyStage(handler) else 0
  }

  function PhaseWork(c: Command, p: Phase): nat {
    match p
    case Writing(left) => left + 6 * Replies(c) + 2
    case Reading(left) => 2 * left + 2
    case Receiving(left, _) => 2 * left + 1
    case Deleting(_) => 2
    case Returning(_) => 1
  }

  function Work(s: State, c: Command): nat {
    TransitWork(s.owed, s.wire, s.handler, c) + (if c in s.calls then PhaseWork(c, s.calls[c].phase) else 0)
  }

  // The command a step is about
  function Subject(s: State, a: Action): Option<Command>
    requires Can(s, a)
  {
    match a
    case ServerSend(m) => CommandOf(m)
    case Fetch => CommandOf(s.wire[0])
    case Dispatch => CommandOf(s.handler.m)
    case Deliver => CommandOf(s.handler.m)
    case StopReading => None
    case RegisterOwn => Some(GetPubKey)
    case AnswerKey => Some(GetPubKey)
    case DeleteOwn => Some(GetPubKey)
    case _ => Some(a.c)
  }

  // One step less for its command, the same for every other, and the balance is
  // kept.
  ghost predicate Advances(s: State, t: State, c: Command) {
    && Known(t) && AllFinished(t.returned)
    && (forall d :: Balanced(t, d))
    && (forall d :: d != c ==> Work(t, d) == Work(s, d))
    && Work(t, c) + 1 == Work(s, c)
  }

  // A command none of whose parts a step touches
  lemma Unaffected(s: State, t: State, d: Command)
    requires Balanced(s, d)
    requires Owes(t.owed, d) == Owes(s.owed, d) && Count(t.wire, d) == Count(s.wire, d)
    requires Holds(t.handler, d) == Holds(s.handler, d) && (Holds(s.handler, d) ==> t.handler == s.handler)
    requires HandlerWork(t.handler, d) == HandlerWork(s.handler, d)
    requires d in s.calls <==> d in t.calls
    requires d in s.calls ==> t.calls[d] == s.calls[d]
    requires d in s.calls && s.calls[d].ch < |s.channels| ==>
      s.calls[d].ch < |t.channels| && t.channels[s.calls[d].ch] == s.channels[s.calls[d].ch]
    requires d in t.chanMap ==> d in s.chanMap && (d == GetAddCode && OwnEntry(s.handler) ==> OwnEntry(t.handler))
    ensures Balanced(t, d) && Work(t, d) == Work(s, d)
  {
    hide Count;
    hide Owes;
    hide CommandOf;
    hide Holds;
  }

  // A reply travels from the server to the channel of its call.

  lemma ServerSendAdvances(s: State, m: Message, c: Command)
    requires Balanced(s, c) && CommandOf(m) == Some(c) && Owes(s.owed, c) > 0
    ensures var t := DoServerSend(s, m); Balanced(t, c) && Work(t, c) + 1 == Work(s, c)
  {
    hide Count;
    CountAppend(s.wire, m, c);
  }

  lemma AdvancesServerSend(s: State, m: Message)
    requires Settled(s) && CommandOf(m).Some? && CommandOf(m) != Some(GetPubKey) && Owes(s.owed, CommandOf(m).value) > 0
    ensures Advances(s, DoServerSend(s, m), CommandOf(m).value)
  {
    hide Inv;
    hide Balanced;
    hide Work;
    hide Count;
    var t, c := DoServerSend(s, m), CommandOf(m).value;
    ServerSendAdvances(s, m, c);
    forall d | d != c ensures Balanced(t, d) && Work(t, d) == Work(s, d) {
      CountAppend(s.wire, m, d);
      Unaffected(s, t, d);
    }
  }

  lemma FetchAdvances(s: State, c: Command)
    requires Balanced(s, c) && s.handler == Idle && s.wire != [] && CommandOf(s.wire[0]) == Some(c)
    ensures var t := s.(handler := Fetched(s.wire[0]), wire := s.wire[1..]);
      Balanced(t, c) && Work(t, c) + 1 == Work(s, c)
  {
  }

  lemma AdvancesFetch(s: State)
    requires Settled(s) && s.handler == Idle && s.wire != []
    ensures Advances(s, s.(handler := Fetched(s.wire[0]), wire := s.wire[1..]), CommandOf(s.wire[0]).value)
  {
    hide Inv;
    hide Balanced;
    hide Work;
    var t, c := s.(handler := Fetched(s.wire[0]), wire := s.wire[1..]), CommandOf(s.wire[0]).value;
    FetchAdvances(s, c);
    forall d | d != c ensures Balanced(t, d) && Work(t, d) == Work(s, d) {
      Unaffected(s, t, d);
    }
  }

  lemma SettledParts(s: State, c: Command)
    requires Settled(s)
    ensures Inv(s) && Known(s) && AllFinished(s.returned) && Tidy(s.calls, s.channels) && KeysApart(s) && Balanced(s, c)
    ensures c in s.calls ==> CallInv(s, c, s.calls[c])
    ensures SendingInv(s.handler, s.channels) && ReturnedInv(s.returned, s.looked)
  {
    hide CallInv;
    hide Balanced;
    hide EntriesInv;
    hide QueuesInv;
  }

  // Every reply underway has a registered call waiting for it.
  lemma Expected(s: State, c: Command)
    requires Settled(s) && Underway(s.owed, s.wire, s.handler, c) > 0 && c != GetPubKey
    ensures c in s.calls && c in s.chanMap && s.chanMap[c] == s.calls[c].ch && s.calls[c].ch < |s.channels|
    ensures |s.channels[s.calls[c].ch].queue| < Due(s.calls[c].phase) <= 2
  {
    hide Settled;
    hide Inv;
    hide Balanced;
    hide Underway;
    hide CallInv;
    hide Due;
    SettledParts(s, c);
    ExpectedCall(s, c);
    WaitingCall(s, c, s.calls[c]);
  }

  lemma ExpectedCall(s: State, c: Command)
    requires Balanced(s, c) && Underway(s.owed, s.wire, s.handler, c) > 0 && c != GetPubKey
    ensures c in s.calls && s.calls[c].ch < |s.channels| && |s.channels[s.calls[c].ch].queue| < Due(s.calls[c].phase)
  {
    hide Underway;
    hide Due;
  }

  lemma WaitingCall(s: State, c: Command, k: Call)
    requires CallInv(s, c, k)
    ensures Due(k.phase) <= 2 && (Due(k.phase) > 0 ==> c in s.chanMap && s.chanMap[c] == k.ch)
  {
    hide LookedUpSince;
    hide InFlight;
  }

  lemma DispatchAdvances(s: State, c: Command)
    requires Balanced(s, c) && s.handler.Fetched? && CommandOf(s.handler.m) == Some(c)
    requires c in s.calls && c in s.chanMap && s.chanMap[c] == s.calls[c].ch
    ensures var t := DoDispatch(s); Balanced(t, c) && Work(t, c) + 1 == Work(s, c)
    ensures var t := DoDispatch(s); t.handler == Sending(s.chanMap[c], s.handler.m)
  {
    hide Count;
    hide Owes;
    hide CommandOf;
  }

  // A request of this client's key finds no entry.
  lemma DispatchKeyAdvances(s: State)
    requires Balanced(s, GetPubKey) && s.handler.Fetched? && CommandOf(s.handler.m) == Some(GetPubKey)
    ensures var t := DoDispatch(s); Balanced(t, GetPubKey) && Work(t, GetPubKey) + 1 == Work(s, GetPubKey)
    ensures DoDispatch(s).handler == Registering
  {
    hide Count;
    hide Owes;
    hide CommandOf;
  }

  lemma DispatchElsewhere(s: State, c: Command, d: Command)
    requires Balanced(s, d) && s.handler.Fetched? && CommandOf(s.handler.m) == Some(c) && d != c
    requires DoDispatch(s).handler.Registering?
      || (DoDispatch(s).handler.Sending? && DoDispatch(s).handler.m == s.handler.m)
    requires DoDispatch(s).handler.Registering? ==> c == GetPubKey
    ensures var t := DoDispatch(s); Balanced(t, d) && Work(t, d) == Work(s, d)
  {
    hide Balanced;
    hide Work;
    hide Owes;
    hide Count;
    hide CommandOf;
    Unaffected(s, DoDispatch(s), d);
  }

  lemma AdvancesDispatch(s: State)
    requires Settled(s) && s.handler.Fetched?
    ensures Advances(s, DoDispatch(s), CommandOf(s.handler.m).value)
  {
    hide Inv;
    hide Balanced;
    hide Work;
    hide KeysApart;
    hide Tidy;
    hide CommandOf;
    hide DoDispatch;
    var t, c := DoDispatch(s), CommandOf(s.handler.m).value;
    DispatchKeepsRest(s);
    DispatchedReply(s, c);
    forall d | d != c ensures Balanced(t, d) && Work(t, d) == Work(s, d) {
      DispatchElsewhere(s, c, d);
    }
  }

  lemma DispatchKeepsRest(s: State)
    requires Known(s) && s.handler.Fetched?
    ensures CommandOf(s.handler.m).Some? && DoDispatch(s).returned == s.returned && DoDispatch(s).wire == s.wire
    ensures var h := DoDispatch(s).handler; h == Idle || h.Registering? || (h.Sending? && h.m == s.handler.m)
  {
    hide CommandOf;
  }

  lemma DispatchedReply(s: State, c: Command)
    requires Settled(s) && s.handler.Fetched? && CommandOf(s.handler.m) == Some(c)
    ensures var t := DoDispatch(s); Balanced(t, c) && Work(t, c) + 1 == Work(s, c)
    ensures var h := DoDispatch(s).handler; if c == GetPubKey then h == Registering else h.Sending?
  {
    hide Settled;
    hide Inv;
    hide Balanced;
    hide Work;
    hide CommandOf;
    hide DoDispatch;
    SettledParts(s, c);
    if c == GetPubKey {
      DispatchKeyAdvances(s);
    } else {
      Expected(s, c);
      DispatchAdvances(s, c);
    }
  }

  // handleGetPubKey takes its three steps.

  lemma KeyStepAdvances(s: State, t: State, d: Command)
    requires Balanced(s, d) && KeyStage(s.handler) > 0 && KeyStage(t.handler) + 1 == KeyStage(s.handler)
    requires t.handler == Idle || KeyStage(t.handler) > 0
    requires t.owed == s.owed && t.wire == s.wire && t.calls == s.calls
    requires d in s.calls && s.calls[d].ch < |s.channels| ==>
      s.calls[d].ch < |t.channels| && t.channels[s.calls[d].ch] == s.channels[s.calls[d].ch]
    requires d in t.chanMap && d !in t.calls ==> d == GetAddCode && OwnEntry(t.handler)
    ensures Balanced(t, d) && Work(t, d) + (if d == GetPubKey then 1 else 0) == Work(s, d)
  {
    hide Count;
    hide Owes;
    hide CommandOf;
    assert HandlerWork(s.handler, d) == if d == GetPubKey then KeyStage(s.handler) else 0;
    assert HandlerWork(t.handler, d) == if d == GetPubKey then KeyStage(t.handler) else 0;
    assert !Holds(s.handler, d) && !Holds(t.handler, d);
    hide HandlerWork;
    hide Holds;
    hide KeyStage;
  }

  lemma AdvancesKeyStep(s: State, a: Action)
    requires Settled(s) && Can(s, a) && (a == RegisterOwn || a == AnswerKey || a == DeleteOwn)
    ensures Advances(s, Do(s, a), GetPubKey)
  {
    var t := Do(s, a);
    forall d ensures Balanced(t, d) && Work(t, d) + (if d == GetPubKey then 1 else 0) == Work(s, d) {
      KeyStepEntries(s, a, d);
      KeyStepAdvances(s, t, d);
    }
  }

  lemma KeyStepEntries(s: State, a: Action, d: Command)
    requires Balanced(s, d) && Can(s, a) && (a == RegisterOwn || a == AnswerKey || a == DeleteOwn)
    ensures var t := Do(s, a); d in t.chanMap && d !in t.calls ==> d == GetAddCode && OwnEntry(t.handler)
  {
    hide Underway;
    hide Due;
  }

  lemma DeliverAdvances(s: State, c: Command)
    requires Balanced(s, c) && s.handler.Sending? && s.handler.ch < |s.channels| && CommandOf(s.handler.m) == Some(c)
    requires c in s.calls
    ensures var t := DoDeliver(s); Balanced(t, c) && Work(t, c) + 1 == Work(s, c)
    ensures s.handler.ch == s.calls[c].ch
  {
    hide Count;
    hide Owes;
    hide CommandOf;
  }

  lemma KnownAfterDeliver(s: State)
    requires Known(s) && s.handler.Sending? && s.handler.ch < |s.channels|
    ensures Known(DoDeliver(s)) && DoDeliver(s).returned == s.returned
  {
  }

  lemma DeliverElsewhere(s: State, c: Command, d: Command)
    requires Balanced(s, d) && s.handler.Sending? && s.handler.ch < |s.channels| && CommandOf(s.handler.m) == Some(c)
    requires d != c && (d in s.calls ==> s.calls[d].ch != s.handler.ch)
    ensures var t := DoDeliver(s); Balanced(t, d) && Work(t, d) == Work(s, d)
  {
    hide Balanced;
    hide Work;
    hide Owes;
    hide Count;
    Unaffected(s, DoDeliver(s), d);
  }

  lemma AdvancesDeliver(s: State)
    requires Settled(s) && s.handler.Sending? && s.handler.ch < |s.channels|
    ensures Advances(s, DoDeliver(s), CommandOf(s.handler.m).value)
  {
    var t, c := DoDeliver(s), CommandOf(s.handler.m).value;
    SendingForCall(s, c);
    Expected(s, c);
    ChannelsDistinct(s);
    hide Inv;
    hide Balanced;
    hide Work;
    hide DoDeliver;
    KnownAfterDeliver(s);
    DeliverAdvances(s, c);
    forall d | d != c ensures Balanced(t, d) && Work(t, d) == Work(s, d) {
      DeliverElsewhere(s, c, d);
    }
  }

  lemma ChannelsDistinct(s: State)
    requires Inv(s)
    ensures forall c, d :: c in s.calls && d in s.calls && c != d ==> s.calls[c].ch != s.calls[d].ch
    ensures forall c :: c in s.calls ==> s.calls[c].ch < |s.channels|
  {
    forall c | c in s.calls ensures s.calls[c].ch < |s.channels| && s.channels[s.calls[c].ch].owner == c {
      ChannelExists(s, c, s.calls[c]);
    }
  }

  // A call moves through its phases.

  lemma KnownAfterCall(s: State, c: Command)
    requires Known(s)
    ensures c in s.calls && s.calls[c].phase.Writing? ==> Known(DoWrite(s, c)) && DoWrite(s, c).returned == s.returned
    ensures ReadyToReceive(s, c) ==> Known(DoReceive(s, c, true)) && DoReceive(s, c, true).returned == s.returned
  {
  }

  lemma LastWriteAdvances(s: State, c: Command)
    requires Balanced(s, c) && c in s.calls && s.calls[c].phase == Writing(1)
    ensures var t := DoLastWrite(s, c); Balanced(t, c) && Work(t, c) + 1 == Work(s, c)
  {
    hide Count;
    hide CommandOf;
    hide Holds;
    hide Owes;
    hide SetOwed;
  }

  lemma WriteAdvances(s: State, c: Command)
    requires Balanced(s, c) && c in s.calls && s.calls[c].phase.Writing? && s.calls[c].phase.left > 0
    ensures var t := DoWrite(s, c); Balanced(t, c) && Work(t, c) + 1 == Work(s, c)
  {
    hide Count;
    hide CommandOf;
    hide Holds;
    hide Owes;
    hide DoLastWrite;
    if s.calls[c].phase.left == 1 {
      LastWriteAdvances(s, c);
    }
  }

  lemma WriteElsewhere(s: State, c: Command, d: Command)
    requires Balanced(s, d) && c in s.calls && s.calls[c].phase.Writing? && d != c
    ensures var t := DoWrite(s, c); Balanced(t, d) && Work(t, d) == Work(s, d)
  {
    hide Balanced;
    hide Work;
    hide Owes;
    hide SetOwed;
    hide Count;
    hide Holds;
    hide HandlerWork;
    Unaffected(s, DoWrite(s, c), d);
  }

  lemma AdvancesWrite(s: State, c: Command)
    requires Settled(s) && c in s.calls && s.calls[c].phase.Writing? && s.calls[c].phase.left > 0
    ensures Advances(s, DoWrite(s, c), c)
  {
    hide Inv;
    hide Balanced;
    hide Work;
    hide Known;
    hide DoWrite;
    WriteAdvances(s, c);
    KnownAfterCall(s, c);
    forall d | d != c ensures Balanced(DoWrite(s, c), d) && Work(DoWrite(s, c), d) == Work(s, d) {
      WriteElsewhere(s, c, d);
    }
  }

  lemma LookupAdvances(s: State, c: Command)
    requires Balanced(s, c) && c in s.calls && s.calls[c].phase.Reading?
    ensures var t := DoLookup(s, c); Balanced(t, c) && Work(t, c) + 1 == Work(s, c)
  {
    hide Count;
    hide CommandOf;
  }

  lemma AdvancesLookup(s: State, c: Command)
    requires Settled(s) && c in s.calls && s.calls[c].phase.Reading?
    ensures Advances(s, DoLookup(s, c), c)
  {
    hide Inv;
    hide Balanced;
    hide Work;
    LookupAdvances(s, c);
    forall d | d != c ensures Balanced(DoLookup(s, c), d) && Work(DoLookup(s, c), d) == Work(s, d) {
      Unaffected(s, DoLookup(s, c), d);
    }
  }

  lemma ReceiveAdvances(s: State, c: Command)
    requires Balanced(s, c) && ReadyToReceive(s, c) && s.calls[c].phase.from == Some(s.calls[c].ch)
    ensures var t := DoReceive(s, c, true); Balanced(t, c) && Work(t, c) + 1 == Work(s, c)
  {
    hide Count;
    hide CommandOf;
  }

  lemma ReceiveElsewhere(s: State, c: Command, d: Command)
    requires Balanced(s, d) && ReadyToReceive(s, c) && s.calls[c].phase.from == Some(s.calls[c].ch)
    requires d in s.calls ==> s.calls[d].ch != s.calls[c].ch
    ensures var t := DoReceive(s, c, true); Balanced(t, d) && Work(t, d) == Work(s, d)
  {
    hide Balanced;
    hide Work;
    hide Count;
    hide Holds;
    hide Owes;
    assert d != c;
    Unaffected(s, DoReceive(s, c, true), d);
  }

  lemma AdvancesReceive(s: State, c: Command)
    requires Settled(s) && ReadyToReceive(s, c)
    ensures Advances(s, DoReceive(s, c, true), c)
  {
    CallOf(s, c);
    FromOwnChannel(s, c);
    ChannelsDistinct(s);
    hide Inv;
    hide Balanced;
    hide Work;
    hide Known;
    hide DoReceive;
    ReceiveAdvances(s, c);
    KnownAfterCall(s, c);
    forall d | d != c ensures Balanced(DoReceive(s, c, true), d) && Work(DoReceive(s, c, true), d) == Work(s, d) {
      ReceiveElsewhere(s, c, d);
    }
  }

  lemma DeleteAdvances(s: State, c: Command)
    requires Balanced(s, c) && c in s.calls && s.calls[c].phase.Deleting?
    ensures var t := DoDeleteEntry(s, c); Balanced(t, c) && Work(t, c) + 1 == Work(s, c)
  {
    hide Count;
    hide CommandOf;
    hide Delete;
  }

  lemma AdvancesDelete(s: State, c: Command)
    requires Settled(s) && c in s.calls && s.calls[c].phase.Deleting?
    ensures Advances(s, DoDeleteEntry(s, c), c)
  {
    hide Inv;
    hide Balanced;
    hide Work;
    hide Delete;
    DeleteAdvances(s, c);
    forall d | d != c ensures Balanced(DoDeleteEntry(s, c), d) && Work(DoDeleteEntry(s, c), d) == Work(s, d) {
      Unaffected(s, DoDeleteEntry(s, c), d);
    }
  }

  lemma LeaveAdvances(s: State, c: Command)
    requires Balanced(s, c) && c in s.calls && s.calls[c].phase.Returning?
    ensures var t := DoLeave(s, c); Balanced(t, c) && Work(t, c) + 1 == Work(s, c)
    ensures s.calls[c].phase.outcome.Finished?
  {
    hide Count;
    hide CommandOf;
    hide Delete;
  }

  lemma AdvancesLeave(s: State, c: Command)
    requires Settled(s) && c in s.calls && s.calls[c].phase.Returning?
    ensures Advances(s, DoLeave(s, c), c)
  {
    hide Inv;
    hide Balanced;
    hide Work;
    hide Delete;
    LeaveAdvances(s, c);
    forall d | d != c ensures Balanced(DoLeave(s, c), d) && Work(DoLeave(s, c), d) == Work(s, d) {
      Unaffected(s, DoLeave(s, c), d);
    }
  }

  // New work keeps the balance.

  lemma BegunBalanced(s: State, c: Command)
    requires Balanced(s, c) && c !in s.calls && c != GetPubKey
    ensures Balanced(DoBegin(s, c), c)
  {
    hide Count;
    hide CommandOf;
  }

  lemma BeginBalanced(s: State, c: Command)
    requires Settled(s) && Polite(s, Begin(c))
    ensures var t := DoBegin(s, c);
      Known(t) && AllFinished(t.returned) && KeysApart(t) && forall d :: Balanced(t, d)
  {
    hide Inv;
    hide Balanced;
    hide Work;
    BegunBalanced(s, c);
    var t := DoBegin(s, c);
    forall d | d != c ensures Balanced(t, d) && Work(t, d) == Work(s, d) {
      Unaffected(s, t, d);
    }
  }

  lemma RequestedKey(s: State, m: Message)
    requires Balanced(s, GetPubKey) && CommandOf(m) == Some(GetPubKey)
    ensures Balanced(DoServerSend(s, m), GetPubKey) && DoServerSend(s, m).owed == s.owed
  {
    hide Count;
    hide CommandOf;
    hide Holds;
  }

  lemma RequestBalanced(s: State, m: Message)
    requires Settled(s) && Polite(s, ServerSend(m)) && CommandOf(m) == Some(GetPubKey)
    ensures var t := DoServerSend(s, m);
      Known(t) && AllFinished(t.returned) && KeysApart(t) && forall d :: Balanced(t, d)
  {
    assert Balanced(s, GetPubKey);
    hide Inv;
    hide Balanced;
    hide Work;
    hide Count;
    var t := DoServerSend(s, m);
    RequestedKey(s, m);
    forall d | d != GetPubKey ensures Balanced(t, d) {
      CountAppend(s.wire, m, d);
      Unaffected(s, t, d);
    }
  }

  // What a step keeps besides: messages wait only for calls under way, and key
  // requests stay apart from GADC calls.

  lemma TidyAfterDeliver(s: State)
    requires Settled(s) && s.handler.Sending? && s.handler.ch < |s.channels|
    ensures Tidy(DoDeliver(s).calls, DoDeliver(s).channels)
  {
    hide Settled;
    hide Inv;
    hide Balanced;
    hide CallInv;
    hide Underway;
    hide KeysApart;
    hide CommandOf;
    SettledParts(s, GetPubKey);
    var c := CommandOf(s.handler.m).value;
    SettledParts(s, c);
    SendingForCall(s, c);
    SomethingUnderway(s, c);
    Expected(s, c);
    SendsToCall(s, c);
  }

  lemma SomethingUnderway(s: State, c: Command)
    requires (s.handler.Fetched? || s.handler.Sending?) && CommandOf(s.handler.m) == Some(c)
    ensures Underway(s.owed, s.wire, s.handler, c) > 0
  {
    hide CommandOf;
  }

  // What is being sent goes into the channel of its call.
  lemma SendsToCall(s: State, c: Command)
    requires Balanced(s, c) && SendingInv(s.handler, s.channels) && s.handler.Sending?
      && CommandOf(s.handler.m) == Some(c)
    requires c in s.calls
    ensures s.handler.ch == s.calls[c].ch && s.handler.ch < |s.channels| && s.channels[s.handler.ch].owner == c
  {
    hide Underway;
    hide CommandOf;
  }

  lemma TidyAfterLeave(s: State, c: Command)
    requires Settled(s) && c in s.calls && s.calls[c].phase.Returning?
    ensures Tidy(DoLeave(s, c).calls, DoLeave(s, c).channels)
  {
    Emptied(s, c);
    hide Inv;
    hide Balanced;
  }

  // A call that has read its last reply leaves nothing in its channel.
  lemma Emptied(s: State, c: Command)
    requires Settled(s) && c in s.calls && (s.calls[c].phase.Deleting? || s.calls[c].phase.Returning?)
    ensures s.calls[c].ch < |s.channels| && s.channels[s.calls[c].ch].queue == []
  {
    hide Inv;
    hide Balanced;
    SettledParts(s, c);
    QueueDue(s, c);
  }

  lemma TidyAfterReceive(s: State, c: Command, pem: bool)
    requires Tidy(s.calls, s.channels) && ReadyToReceive(s, c)
    ensures Tidy(DoReceive(s, c, pem).calls, DoReceive(s, c, pem).channels)
  {
    var t := DoReceive(s, c, pem);
    assert forall d :: d in s.calls ==> d in t.calls && t.calls[d].ch == s.calls[d].ch;
    assert forall i :: 0 <= i < |s.channels| ==>
      t.channels[i].owner == s.channels[i].owner && |t.channels[i].queue| <= |s.channels[i].queue|;
  }

  lemma TidyAfterCall(s: State, a: Action)
    requires Tidy(s.calls, s.channels) && Can(s, a) && (a.WriteOne? || a.Lookup? || a.DeleteEntry?)
    ensures Tidy(Do(s, a).calls, Do(s, a).channels)
  {
    var t := Do(s, a);
    assert t.channels == s.channels;
    assert forall d :: d in s.calls ==> d in t.calls && t.calls[d].ch == s.calls[d].ch;
  }

  lemma TidyAfterBegin(s: State, c: Command)
    requires Tidy(s.calls, s.channels) && c !in s.calls
    ensures Tidy(DoBegin(s, c).calls, DoBegin(s, c).channels)
  {
  }

  lemma KeepsTidy(s: State, a: Action)
    requires Settled(s) && Polite(s, a)
    ensures Tidy(Do(s, a).calls, Do(s, a).channels)
  {
    hide Inv;
    hide Balanced;
    hide Work;
    hide Known;
    match a
    case ServerSend(_) =>
    case Fetch =>
    case Dispatch =>
    case RegisterOwn =>
    case AnswerKey =>
    case DeleteOwn =>
    case Deliver => TidyAfterDeliver(s);
    case Begin(c) => TidyAfterBegin(s, c);
    case WriteOne(_) => TidyAfterCall(s, a);
    case Lookup(_) => TidyAfterCall(s, a);
    case DeleteEntry(_) => TidyAfterCall(s, a);
    case Receive(c, pem) => TidyAfterReceive(s, c, pem);
    case Leave(c) => TidyAfterLeave(s, c);
  }

  lemma CallsOnlyEnd(s: State, a: Action)
    requires Can(s, a) && !a.Begin?
    ensures Do(s, a).calls.Keys <= s.calls.Keys
  {
  }

  // handleGetPubKey never meets a GADC call.
  lemma NeverInterferes(s: State, a: Action)
    requires KeysApart(s) && Can(s, a)
    ensures !Clobbers(s, a)
  {
    hide Count;
    hide Owes;
  }

  // Every step but new work brings its command one step closer to the end.
  lemma StepAdvances(s: State, a: Action)
    requires Settled(s) && Polite(s, a) && !NewWork(a)
    ensures Subject(s, a).Some? && Advances(s, Do(s, a), Subject(s, a).value)
  {
    assert Balanced(s, GetPubKey) && KeysApart(s);
    hide Settled;
    hide Balanced;
    hide Work;
    hide Advances;
    hide Do;
    match a
    case ServerSend(m) => AdvancesServerSend(s, m);
    case Fetch => AdvancesFetch(s);
    case Dispatch => AdvancesDispatch(s);
    case Deliver => AdvancesDeliver(s);
    case RegisterOwn => AdvancesKeyStep(s, a);
    case AnswerKey => AdvancesKeyStep(s, a);
    case DeleteOwn => AdvancesKeyStep(s, a);
    case WriteOne(c) => AdvancesWrite(s, c);
    case Lookup(c) => AdvancesLookup(s, c);
    case Receive(c, _) => AdvancesReceive(s, c);
    case DeleteEntry(c) => AdvancesDelete(s, c);
    case Leave(c) => AdvancesLeave(s, c);
  }

  lemma StepSettles(s: State, a: Action)
    requires Settled(s) && Polite(s, a)
    ensures Settled(Do(s, a))
  {
    NeverInterferes(s, a);
    StepKeeps(s, a);
    KeepsTidy(s, a);
    hide Inv;
    hide Balanced;
    hide Work;
    hide Tidy;
    hide Do;
    if a.Begin? {
      BeginBalanced(s, a.c);
    } else if NewWork(a) {
      RequestBalanced(s, a.m);
    } else {
      StepAdvances(s, a);
      CallsOnlyEnd(s, a);
    }
  }

  // The whole measure

  function SumWork(s: State, cs: seq<Command>): nat {
    if cs == [] then 0 else Work(s, cs[0]) + SumWork(s, cs[1..])
  }

  function Remaining(s: State): nat {
    SumWork(s, AllCommands)
  }

  lemma {:induction false} SumSame(s: State, t: State, cs: seq<Command>)
    requires forall i :: 0 <= i < |cs| ==> Work(t, cs[i]) == Work(s, cs[i])
    ensures SumWork(t, cs) == SumWork(s, cs)
  {
    hide Work;
    if cs != [] {
      SumSame(s, t, cs[1..]);
    }
  }

  lemma {:induction false} SumDrops(s: State, t: State, cs: seq<Command>, n: nat)
    requires n < |cs| && Work(t, cs[n]) + 1 == Work(s, cs[n])
    requires forall i :: 0 <= i < |cs| && i != n ==> Work(t, cs[i]) == Work(s, cs[i])
    ensures SumWork(t, cs) + 1 == SumWork(s, cs)
  {
    hide Work;
    if n == 0 {
      SumSame(s, t, cs[1..]);
    } else {
      SumDrops(s, t, cs[1..], n - 1);
    }
  }

  lemma AllCommandsDistinct(i: nat, c: Command)
    requires i < 13 && i != c.Code()
    ensures |AllCommands| == 13 && AllCommands[i] != c
  {
    CommandTableInverse(AllCommands[i]);
    if AllCommands[i] == c {
      CodeAt(i);
    }
  }

  lemma WorkDrops(s: State, t: State, c: Command)
    requires Work(t, c) + 1 == Work(s, c) && forall d :: d != c ==> Work(t, d) == Work(s, d)
    ensures Remaining(t) + 1 == Remaining(s)
  {
    hide Work;
    CommandTableInverse(c);
    forall i | 0 <= i < 13 && i != c.Code() ensures AllCommands[i] != c {
      AllCommandsDistinct(i, c);
    }
    SumDrops(s, t, AllCommands, c.Code());
  }

  lemma StepDecreases(s: State, a: Action)
    requires Settled(s) && Polite(s, a) && !NewWork(a)
    ensures Settled(Do(s, a)) && Remaining(Do(s, a)) + 1 == Remaining(s)
  {
    assert Can(s, a);
    hide Settled;
    hide Work;
    hide Remaining;
    hide Polite;
    hide Advances;
    hide Do;
    StepSettles(s, a);
    StepAdvances(s, a);
    WorkDrops(s, Do(s, a), Subject(s, a).value);
  }

  lemma {:induction false} SumPositive(s: State, cs: seq<Command>) returns (c: Command)
    requires SumWork(s, cs) > 0
    ensures Work(s, c) > 0
  {
    hide Work;
    if Work(s, cs[0]) > 0 {
      c := cs[0];
    } else {
      c := SumPositive(s, cs[1..]);
    }
  }

  lemma {:induction false} SumZero(s: State, cs: seq<Command>, n: nat)
    requires SumWork(s, cs) == 0 && n < |cs|
    ensures Work(s, cs[n]) == 0
  {
    hide Work;
    if n > 0 {
      SumZero(s, cs[1..], n - 1);
    }
  }

  // As long as anything is left to do, some step other than a new call can be
  // taken.
  lemma NeverStuck(s: State) returns (a: Action)
    requires Settled(s) && Remaining(s) > 0
    ensures Polite(s, a) && !NewWork(a)
  {
    hide Inv;
    hide Balanced;
    hide Work;
    match s.handler {
      case Fetched(_) => return Dispatch;
      case Sending(_, _) => ChannelHasRoom(s); return Deliver;
      case Registering => return RegisterOwn;
      case Answering => return AnswerKey;
      case Unregistering => return DeleteOwn;
      case _ =>
    }
    if s.wire != [] {
      return Fetch;
    }
    var c := SumPositive(s, AllCommands);
    if Owes(s.owed, c) > 0 {
      CommandTableInverse(c);
      assert Balanced(s, c);
      SomethingOwed(s, c);
      return ServerSend(Message([], 0, c.Code()));
    }
    WorkOfCall(s, c);
    a := CallCanMove(s, c);
  }

  lemma SomethingOwed(s: State, c: Command)
    requires Balanced(s, c) && Owes(s.owed, c) > 0
    ensures c != GetPubKey
  {
  }

  lemma WorkOfCall(s: State, c: Command)
    requires Work(s, c) > 0 && s.handler == Idle && s.wire == [] && Owes(s.owed, c) == 0
    ensures c in s.calls
  {
    assert Count(s.wire, c) == 0;
  }

  lemma ChannelHasRoom(s: State)
    requires Settled(s) && s.handler.Sending?
    ensures Can(s, Deliver)
  {
    var c := CommandOf(s.handler.m).value;
    SendingForCall(s, c);
    Expected(s, c);
    assert Balanced(s, c);
  }

  // What is being sent into a channel is not a request of this client's key.
  lemma SendingForCall(s: State, c: Command)
    requires Settled(s) && s.handler.Sending? && CommandOf(s.handler.m) == Some(c)
    ensures c != GetPubKey
  {
    assert Balanced(s, GetPubKey);
  }

  lemma PhaseShape(s: State, c: Command)
    requires Inv(s) && c in s.calls
    ensures var k := s.calls[c];
      && k.ch < |s.channels|
      && (k.phase.Writing? || k.phase.Reading? || k.phase.Receiving? ==> k.phase.left > 0)
      && (k.phase.Receiving? ==> k.phase.from == Some(k.ch))
  {
    CallOf(s, c);
  }

  // With nothing underway a call has all it waits for in its channel.
  lemma AllArrived(s: State, c: Command)
    requires Balanced(s, c) && s.handler == Idle && s.wire == [] && Owes(s.owed, c) == 0
    ensures c in s.calls ==> s.calls[c].ch < |s.channels| && |s.channels[s.calls[c].ch].queue| == Due(s.calls[c].phase)
  {
    assert Count(s.wire, c) == 0;
  }

  lemma CallCanMove(s: State, c: Command) returns (a: Action)
    requires Settled(s) && s.handler == Idle && s.wire == [] && Owes(s.owed, c) == 0 && c in s.calls
    ensures Polite(s, a) && !NewWork(a)
  {
    hide Inv;
    hide Balanced;
    hide Polite;
    AllArrived(s, c);
    PhaseShape(s, c);
    a := NextStep(s, c);
  }

  lemma NextStep(s: State, c: Command) returns (a: Action)
    requires s.handler == Idle && c in s.calls
    requires s.calls[c].ch < |s.channels| && |s.channels[s.calls[c].ch].queue| == Due(s.calls[c].phase)
    requires s.calls[c].phase.Writing? || s.calls[c].phase.Reading? || s.calls[c].phase.Receiving? ==>
      s.calls[c].phase.left > 0
    requires s.calls[c].phase.Receiving? ==> s.calls[c].phase.from == Some(s.calls[c].ch)
    ensures Polite(s, a) && !NewWork(a)
  {
    match s.calls[c].phase
    case Writing(_) => a := WriteOne(c);
    case Reading(_) => a := Lookup(c);
    case Receiving(_, _) => a := Receive(c, true);
    case Deleting(_) => a := DeleteEntry(c);
    case Returning(_) => a := Leave(c);
  }

  lemma NoWork(s: State, c: Command)
    requires Balanced(s, c) && Work(s, c) == 0 && Work(s, GetPubKey) == 0
    ensures c !in s.calls && c !in s.chanMap && Owes(s.owed, c) == 0 && Count(s.wire, c) == 0 && !Holds(s.handler, c)
    ensures KeyStage(s.handler) == 0
  {
    hide Count;
    hide CommandOf;
  }

  // When nothing is left to do, nothing is left behind.
  lemma NothingRemains(s: State, c: Command)
    requires Settled(s) && Remaining(s) == 0
    ensures c !in s.calls && c !in s.chanMap && Owes(s.owed, c) == 0 && Count(s.wire, c) == 0 && !Holds(s.handler, c)
    ensures KeyStage(s.handler) == 0
  {
    hide Inv;
    hide Balanced;
    hide Work;
    CommandTableInverse(c);
    CommandTableInverse(GetPubKey);
    SumZero(s, AllCommands, c.Code());
    SumZero(s, AllCommands, GetPubKey.Code());
    NoWork(s, c);
  }

  // Runs

  predicate PoliteRun(s: State, run: seq<Action>)
    decreases |run|
  {
    run == [] || (Polite(s, run[0]) && PoliteRun(Do(s, run[0]), run[1..]))
  }

  // Polite runs are runs.
  lemma {:induction false} PoliteIsRun(s: State, run: seq<Action>)
    requires PoliteRun(s, run)
    ensures CanRun(s, run)
    decreases |run|
  {
    hide Can;
    hide Do;
    if run != [] {
      PoliteIsRun(Do(s, run[0]), run[1..]);
    }
  }

  ghost predicate NoNewWork(run: seq<Action>) {
    forall i :: 0 <= i < |run| ==> !NewWork(run[i])
  }

  lemma {:induction false} RunSettles(s: State, run: seq<Action>)
    requires Settled(s) && PoliteRun(s, run)
    ensures CanRun(s, run) && Settled(After(s, run))
    ensures NoNewWork(run) ==> |run| + Remaining(After(s, run)) == Remaining(s)
    decreases |run|
  {
    hide Settled;
    hide Do;
    hide Can;
    hide Remaining;
    PoliteIsRun(s, run);
    if run != [] {
      StepSettles(s, run[0]);
      RunSettles(Do(s, run[0]), run[1..]);
      if NoNewWork(run) {
        StepDecreases(s, run[0]);
        assert NoNewWork(run[1..]);
      }
    }
  }

  lemma StartSettled()
    ensures Settled(Start)
  {
    StartInv();
    forall c ensures Balanced(Start, c) {
    }
  }

  // Between the steps of a polite run: the handler can always deliver, at most
  // two messages wait in any channel, none outside the channel of a call under
  // way and none for a call that has read its last reply; a command without a
  // call has no entry, except for that of handleGetPubKey; and every call that
  // returned had read exactly its number of replies, the first of its command
  // looked up after it registered, and returned the table entry of the last.
  ghost predicate Orderly(s: State) {
    && (s.handler.Sending? ==> Can(s, Deliver))
    && (forall i :: 0 <= i < |s.channels| ==> |s.channels[i].queue| <= 2)
    && Tidy(s.calls, s.channels)
    && (forall c :: c in s.calls && (s.calls[c].phase.Deleting? || s.calls[c].phase.Returning?) ==>
         s.calls[c].ch < |s.channels| && s.channels[s.calls[c].ch].queue == [])
    && (forall c :: c in s.chanMap && c !in s.calls ==> c == GetAddCode && OwnEntry(s.handler))
    && AllFinished(s.returned) && ReturnedInv(s.returned, s.looked)
  }

  // No call, entry or message is left.
  ghost predicate AtRest(s: State) {
    && s.calls == map[] && s.chanMap == map[] && s.wire == [] && s.handler == Idle
    && forall i :: 0 <= i < |s.channels| ==> s.channels[i].queue == []
  }

  // After any polite run, with any number of calls begun and key requests made,
  // the state is orderly. Once nothing new comes, every continuation ends after
  // exactly Remaining steps, it can be continued until then, and then
  // everything is at rest.
  lemma EverythingDrains(run: seq<Action>, rest: seq<Action>)
    requires PoliteRun(Start, run) && CanRun(Start, run) && PoliteRun(After(Start, run), rest) && NoNewWork(rest)
    requires CanRun(After(Start, run), rest)
    ensures var s := After(Start, run);
      var t := After(s, rest);
      && Orderly(s) && Orderly(t)
      && |rest| <= Remaining(s)
      && (|rest| < Remaining(s) <==> exists a :: Polite(t, a) && !NewWork(a))
      && (|rest| == Remaining(s) <==> AtRest(t))
  {
    hide Can;
    hide Do;
    hide Remaining;
    hide Orderly;
    hide AtRest;
    StartSettled();
    RunSettles(Start, run);
    var s := After(Start, run);
    RunSettles(s, rest);
    var t := After(s, rest);
    SettledOrderly(s);
    SettledOrderly(t);
    NothingLeft(t);
    if |rest| < Remaining(s) {
      var a := NeverStuck(t);
      assert Polite(t, a) && !NewWork(a);
    } else {
      forall a | Polite(t, a) && !NewWork(a) ensures false {
        StepDecreases(t, a);
      }
    }
  }

  lemma SettledOrderly(s: State)
    requires Settled(s)
    ensures Orderly(s)
  {
    hide Inv;
    hide Balanced;
    hide KeysApart;
    hide Tidy;
    hide ReturnedInv;
    hide Can;
    if s.handler.Sending? {
      ChannelHasRoom(s);
    }
    SettledParts(s, GetPubKey);
    forall i | 0 <= i < |s.channels| ensures |s.channels[i].queue| <= 2 {
      QueueShort(s, i);
    }
    forall c | c in s.calls && (s.calls[c].phase.Deleting? || s.calls[c].phase.Returning?)
      ensures s.calls[c].ch < |s.channels| && s.channels[s.calls[c].ch].queue == []
    {
      Emptied(s, c);
    }
    forall c | c in s.chanMap && c !in s.calls ensures c == GetAddCode && OwnEntry(s.handler) {
      SettledParts(s, c);
      OnlyOwnEntry(s, c);
    }
  }

  lemma OnlyOwnEntry(s: State, c: Command)
    requires Balanced(s, c) && c in s.chanMap && c !in s.calls
    ensures c == GetAddCode && OwnEntry(s.handler)
  {
    hide Underway;
  }

  lemma QueueShort(s: State, i: nat)
    requires Settled(s) && i < |s.channels|
    ensures |s.channels[i].queue| <= 2
  {
    hide Settled;
    hide Inv;
    hide Balanced;
    hide CallInv;
    hide Due;
    if s.channels[i].queue != [] {
      var c := s.channels[i].owner;
      SettledParts(s, c);
      QueueDue(s, c);
      WaitingCall(s, c, s.calls[c]);
    }
  }

  lemma QueueDue(s: State, c: Command)
    requires Balanced(s, c) && c in s.calls
    ensures s.calls[c].ch < |s.channels| && |s.channels[s.calls[c].ch].queue| <= Due(s.calls[c].phase)
  {
    hide Underway;
    hide Due;
  }

  // A command with a message on the wire, if any is, and one whose message the
  // handler holds
  lemma InTransit(s: State) returns (c: Command, d: Command)
    requires Known(s)
    ensures s.wire != [] ==> Count(s.wire, c) > 0
    ensures s.handler.Fetched? || s.handler.Sending? ==> Holds(s.handler, d)
  {
    hide CommandOf;
    c := if s.wire != [] then CommandOf(s.wire[0]).value else Init;
    d := if s.handler.Fetched? || s.handler.Sending? then CommandOf(s.handler.m).value else Init;
  }

  lemma NothingLeft(s: State)
    requires Settled(s)
    ensures Remaining(s) == 0 <==> AtRest(s)
  {
    hide Inv;
    hide Balanced;
    hide Remaining;
    hide Count;
    hide Holds;
    var c, d := InTransit(s);
    if Remaining(s) == 0 {
      NothingRemains(s, c);
      NothingRemains(s, d);
      forall e ensures e !in s.calls && e !in s.chanMap {
        NothingRemains(s, e);
      }
    } else if AtRest(s) {
      var a := NeverStuck(s);
      assert a.ServerSend?;
      NothingOwed(s, CommandOf(a.m).value);
    }
  }

  // The server owes nothing once its calls are gone.
  lemma NothingOwed(s: State, c: Command)
    requires Settled(s) && c !in s.calls
    ensures Owes(s.owed, c) == 0
  {
    assert Balanced(s, c);
  }
}
