// What handleGetPubKey does to a GADC call whose entry it replaces or deletes,
// and what it leaves alone: the call is cut off from the server, but no call
// ever reads what it should not.
module DemuxInterference {
  import opened Tables
  import opened Framing
  import opened Demux
  import opened DemuxRouting
  import opened DemuxRuns

  // A channel of GADC with nothing in it
  predicate Dead(channels: seq<Channel>, ch: nat) {
    ch < |channels| && channels[ch] == Channel(GetAddCode, [])
  }

  // Neither the handler nor the map leads to the channel.
  predicate LeadsElsewhere(s: State, ch: nat) {
    && (s.handler.Sending? ==> s.handler.ch < |s.channels| && s.channels[s.handler.ch].owner != GetAddCode)
    && (GetAddCode in s.chanMap ==> s.chanMap[GetAddCode] != ch && Dead(s.channels, s.chanMap[GetAddCode]))
  }

  // As in ProgressOfReplies, but the call may wait on nil or on a channel that
  // handleGetPubKey made.
  ghost predicate ProgressCutOff(channels: seq<Channel>, k: Call) {
    match k.phase
    case Receiving(left, from) =>
      0 < left && |k.consumed| + left == Replies(GetAddCode)
      && (from == None || from == Some(k.ch) || Dead(channels, from.value))
    case _ => ProgressOfReplies(GetAddCode, k)
  }

  // Neither the map nor the handler leads to the channel of the call; what it
  // read and what is queued are the first messages looked up for it.
  ghost predicate Severed(s: State, k: Call) {
    && k.ch < |s.channels| && s.channels[k.ch].owner == GetAddCode && k.start <= |s.looked|
    && LeadsElsewhere(s, k.ch)
    && ProgressCutOff(s.channels, k)
    && k.consumed + s.channels[k.ch].queue <= LookedUpSince(s.looked, k.start, GetAddCode)
    && (k.consumed != [] ==> s.addCode == k.consumed[0].data)
  }

  // The state without its GADC call
  function Without(s: State): State {
    s.(calls := Delete(s.calls, GetAddCode))
  }

  // The GADC call is cut off; everything else is as it should be.
  ghost predicate CutOff(s: State) {
    GetAddCode in s.calls && Severed(s, s.calls[GetAddCode]) && Inv(Without(s))
  }

  // A step about the GADC call itself
  predicate OwnStep(a: Action) {
    a == WriteOne(GetAddCode) || a == FailWrite(GetAddCode) || a == Lookup(GetAddCode)
    || a == Receive(GetAddCode, true) || a == Receive(GetAddCode, false)
    || a == DeleteEntry(GetAddCode) || a == Leave(GetAddCode)
  }

  // Interfering cuts the call off.

  lemma SameCall(s: State, c: Command, k: Call)
    ensures CallInv(Without(s), c, k) <==> CallInv(s, c, k)
  {
  }

  lemma ClobberCutsOff(s: State, a: Action)
    requires Inv(s) && Can(s, a) && Clobbers(s, a)
    ensures CutOff(Do(s, a)) && Do(s, a).calls == s.calls
    ensures var k := s.calls[GetAddCode];
      k.ch < |s.channels| && InFlight(Do(s, a).channels, Do(s, a).handler, k) == InFlight(s.channels, s.handler, k)
  {
    ClobberSevers(s, a);
    ClobberSparesOthers(s, a);
  }

  // What a step of handleGetPubKey leaves alone
  lemma ClobberEffect(s: State, a: Action)
    requires Can(s, a) && (a == RegisterOwn || a == DeleteOwn)
    ensures var t := Do(s, a);
      && t.looked == s.looked && t.calls == s.calls && t.returned == s.returned && t.addCode == s.addCode
      && !s.handler.Sending? && !t.handler.Sending?
      && (t.channels == s.channels || t.channels == s.channels + [Channel(GetAddCode, [])])
      && (forall c :: c != GetAddCode && c in t.chanMap ==> c in s.chanMap && t.chanMap[c] == s.chanMap[c])
      && (forall c :: c != GetAddCode && c in s.chanMap ==> c in t.chanMap)
      && (GetAddCode in t.chanMap ==>
           OwnEntry(t.handler) && t.chanMap[GetAddCode] == |s.channels| && |t.channels| > |s.channels|)
  {
  }

  lemma CallLeadsElsewhere(s: State, a: Action, ch: nat)
    requires Can(s, a) && (a == RegisterOwn || a == DeleteOwn) && ch < |s.channels|
    ensures LeadsElsewhere(Do(s, a), ch)
  {
  }

  lemma SeversCall(s: State, t: State, k: Call)
    requires CallInv(s, GetAddCode, k) && Registered(k.phase) && Pending(s.handler, k.ch) == []
    requires t.looked == s.looked && t.addCode == s.addCode && LeadsElsewhere(t, k.ch)
    requires t.channels == s.channels || t.channels == s.channels + [Channel(GetAddCode, [])]
    ensures Severed(t, k)
  {
    hide LookedUpSince;
    hide LeadsElsewhere;
    hide ResultOfReplies;
    assert k.consumed + s.channels[k.ch].queue + [] == k.consumed + s.channels[k.ch].queue;
  }

  lemma ClobberSevers(s: State, a: Action)
    requires Inv(s) && Can(s, a) && Clobbers(s, a)
    ensures var t, k := Do(s, a), s.calls[GetAddCode];
      t.calls == s.calls && k.ch < |s.channels| && Severed(t, k)
      && InFlight(t.channels, t.handler, k) == InFlight(s.channels, s.handler, k)
  {
    var k := s.calls[GetAddCode];
    CallOf(s, GetAddCode);
    ChannelExists(s, GetAddCode, k);
    ClobberEffect(s, a);
    CallLeadsElsewhere(s, a, k.ch);
    hide Inv;
    hide CallInv;
    hide Severed;
    hide LeadsElsewhere;
    hide Do;
    hide Can;
    SeversCall(s, Do(s, a), k);
  }

  lemma ClobberSparesCall(s: State, a: Action, c: Command)
    requires Can(s, a) && (a == RegisterOwn || a == DeleteOwn) && c != GetAddCode
    requires c in s.calls && CallInv(s, c, s.calls[c])
    ensures CallInv(Without(Do(s, a)), c, s.calls[c])
  {
    ClobberEffect(s, a);
    ChannelExists(s, c, s.calls[c]);
    var t := Do(s, a);
    hide CallInv;
    hide Do;
    hide Can;
    hide Without;
    Untouched(s, t, c, s.calls[c]);
    SameCall(t, c, s.calls[c]);
  }

  lemma ClobberSparesEntries(s: State, a: Action)
    requires EntriesInv(s.chanMap, s.calls, s.channels, OwnEntry(s.handler)) && Can(s, a)
      && (a == RegisterOwn || a == DeleteOwn)
    ensures var t := Do(s, a); EntriesInv(t.chanMap, Without(t).calls, t.channels, OwnEntry(t.handler))
  {
    ClobberEffect(s, a);
    hide Do;
    hide Can;
  }

  lemma ClobberSparesQueues(s: State, a: Action)
    requires QueuesInv(s.channels) && Can(s, a) && (a == RegisterOwn || a == DeleteOwn)
    ensures QueuesInv(Do(s, a).channels)
  {
  }

  lemma ClobberSparesOthers(s: State, a: Action)
    requires Inv(s) && Can(s, a) && Clobbers(s, a)
    ensures Inv(Without(Do(s, a)))
  {
    hide CallInv;
    hide CallsInv;
    hide ReturnedInv;
    hide QueuesInv;
    hide EntriesInv;
    var t := Without(Do(s, a));
    ClobberEffect(s, a);
    ClobberSparesEntries(s, a);
    ClobberSparesQueues(s, a);
    hide Can;
    hide Do;
    forall c | c in t.calls ensures CallInv(t, c, t.calls[c]) {
      CallOf(s, c);
      ClobberSparesCall(s, a, c);
    }
    AllCalls(t);
  }

  lemma AllCalls(s: State)
    requires forall c :: c in s.calls ==> CallInv(s, c, s.calls[c])
    ensures CallsInv(s)
  {
  }

  // Steps besides the call's own leave it cut off, and the others in order.

  predicate CallStep(a: Action) {
    a.Begin? || a.WriteOne? || a.FailWrite? || a.Lookup? || a.Receive? || a.DeleteEntry? || a.Leave?
  }

  lemma DeleteCommutes(calls: map<Command, Call>, c: Command, k: Call)
    requires c != GetAddCode
    ensures Delete(calls[c := k], GetAddCode) == Delete(calls, GetAddCode)[c := k]
    ensures Delete(Delete(calls, c), GetAddCode) == Delete(Delete(calls, GetAddCode), c)
  {
  }

  // Taking the GADC call out of the state commutes with the steps of any other.
  lemma OtherPhase(s: State, c: Command, p: Phase)
    requires c in s.calls && c != GetAddCode
    ensures SetPhase(Without(s), c, p) == Without(SetPhase(s, c, p))
  {
    DeleteCommutes(s.calls, c, s.calls[c].(phase := p));
  }

  lemma OtherLastWrite(s: State, c: Command)
    requires c in s.calls && c != GetAddCode
    ensures DoLastWrite(Without(s), c) == Without(DoLastWrite(s, c))
  {
    DeleteCommutes(s.calls, c, s.calls[c].(phase := Reading(Replies(c))));
    assert Without(s).calls[c] == s.calls[c];
    hide Delete;
    hide SetOwed;
    hide Owes;
  }

  lemma OtherWrite(s: State, c: Command)
    requires c in s.calls && c != GetAddCode && s.calls[c].phase.Writing?
    ensures DoWrite(Without(s), c) == Without(DoWrite(s, c))
  {
    assert Without(s).calls[c] == s.calls[c];
    hide Without;
    hide SetPhase;
    hide DoLastWrite;
    if s.calls[c].phase.left > 1 {
      OtherPhase(s, c, Writing(s.calls[c].phase.left - 1));
    } else {
      OtherLastWrite(s, c);
    }
  }

  // Receiving does not look at the other calls.
  lemma ReceiveAmong(s: State, calls: map<Command, Call>, c: Command, pem: bool)
    requires ReadyToReceive(s, c) && c in calls && calls[c] == s.calls[c]
    ensures ReadyToReceive(s.(calls := calls), c)
    ensures var t := DoReceive(s, c, pem);
      && c in t.calls && t.calls == s.calls[c := t.calls[c]]
      && DoReceive(s.(calls := calls), c, pem) == t.(calls := calls[c := t.calls[c]])
  {
  }

  lemma OtherReceive(s: State, c: Command, pem: bool)
    requires ReadyToReceive(s, c) && c != GetAddCode
    ensures ReadyToReceive(Without(s), c) && DoReceive(Without(s), c, pem) == Without(DoReceive(s, c, pem))
  {
    hide DoReceive;
    var others := Delete(s.calls, GetAddCode);
    assert c in others && others[c] == s.calls[c];
    hide Delete;
    ReceiveAmong(s, others, c, pem);
    DeleteCommutes(s.calls, c, DoReceive(s, c, pem).calls[c]);
  }

  lemma OtherBegin(s: State, c: Command)
    requires c != GetAddCode
    ensures DoBegin(Without(s), c) == Without(DoBegin(s, c))
  {
    DeleteCommutes(s.calls, c, DoBegin(s, c).calls[c]);
    hide Delete;
  }

  lemma OtherLeave(s: State, c: Command)
    requires c in s.calls && s.calls[c].phase.Returning? && c != GetAddCode
    ensures DoLeave(Without(s), c) == Without(DoLeave(s, c))
  {
    DeleteCommutes(s.calls, c, s.calls[c]);
    assert Without(s).calls[c] == s.calls[c];
    hide Delete;
  }

  lemma OtherCallStep(s: State, a: Action)
    requires Can(s, a) && GetAddCode in s.calls && CallStep(a) && a.c != GetAddCode
    ensures Can(Without(s), a) && Do(Without(s), a) == Without(Do(s, a))
  {
    assert a.c in s.calls <==> a.c in Without(s).calls;
    assert a.c in s.calls ==> Without(s).calls[a.c] == s.calls[a.c];
    hide Delete;
    hide SetPhase;
    hide DoWrite;
    hide DoReceive;
    hide DoBegin;
    hide DoLeave;
    match a
    case Begin(c) => OtherBegin(s, c);
    case WriteOne(c) => OtherWrite(s, c);
    case FailWrite(c) => OtherPhase(s, c, Returning(WriteError));
    case Lookup(c) =>
      OtherPhase(s, c, Receiving(s.calls[c].phase.left, if c in s.chanMap then Some(s.chanMap[c]) else None));
    case Receive(c, pem) => OtherReceive(s, c, pem);
    case DeleteEntry(c) => OtherPhase(s, c, Returning(s.calls[c].phase.outcome));
    case Leave(c) => OtherLeave(s, c);
  }

  lemma CallUntouched(s: State, a: Action, c: Command)
    requires Can(s, a) && c in s.calls && (CallStep(a) ==> a.c != c)
    ensures c in Do(s, a).calls && Do(s, a).calls[c] == s.calls[c]
  {
    hide SetOwed;
    hide Owes;
    hide Routed;
    hide CommandOf;
  }

  lemma OtherStep(s: State, a: Action)
    requires Can(s, a) && GetAddCode in s.calls && !OwnStep(a)
    ensures Can(Without(s), a) && Do(Without(s), a) == Without(Do(s, a)) && !Clobbers(Without(s), a)
    ensures GetAddCode in Do(s, a).calls && Do(s, a).calls[GetAddCode] == s.calls[GetAddCode]
  {
    CallUntouched(s, a, GetAddCode);
    if CallStep(a) {
      OtherCallStep(s, a);
    } else {
      hide SetOwed;
      hide Owes;
      hide Routed;
      hide CommandOf;
    }
  }

  lemma SeveredStays(s: State, t: State, k: Call)
    requires Severed(s, k) && SameGadcChannels(s, t)
    requires LeadsElsewhere(t, k.ch)
    requires s.looked <= t.looked
    requires LookedUpSince(s.looked, k.start, GetAddCode) <= LookedUpSince(t.looked, k.start, GetAddCode)
    ensures Severed(t, k)
  {
    hide LookedUpSince;
  }

  // What another step does to the GADC call that is cut off: at most it looks up
  // a message for it, which is lost.

  function Missed(s: State, a: Action): seq<Message>
    requires Can(s, a)
  {
    if a == Dispatch && CommandOf(s.handler.m) == Some(GetAddCode) then [s.handler.m] else []
  }

  lemma LookedUp(s: State, a: Action, start: nat)
    requires Can(s, a) && start <= |s.looked|
    ensures s.looked <= Do(s, a).looked
    ensures LookedUpSince(Do(s, a).looked, start, GetAddCode) ==
            LookedUpSince(s.looked, start, GetAddCode) + Missed(s, a)
  {
    hide LookedUpSince;
    hide CommandOf;
    if a == Dispatch {
      LookOneUp(s.looked, start, GetAddCode, s.handler.m);
    } else {
      assert Do(s, a).looked == s.looked by {
        hide SetOwed;
        hide Owes;
      }
    }
  }

  // The channels of GADC, from s to t
  ghost predicate SameGadcChannels(s: State, t: State) {
    && |s.channels| <= |t.channels| && t.addCode == s.addCode
    && forall i :: 0 <= i < |s.channels| && s.channels[i].owner == GetAddCode ==> t.channels[i] == s.channels[i]
  }

  lemma ReceiveElsewhere(s: State, c: Command, pem: bool)
    requires Inv(Without(s)) && c in Without(s).calls && ReadyToReceive(s, c)
    ensures SameGadcChannels(s, DoReceive(s, c, pem))
  {
    CallOf(Without(s), c);
    FromOwnChannel(Without(s), c);
    ChannelExists(Without(s), c, s.calls[c]);
    hide Inv;
    hide CallInv;
  }

  lemma QuietStep(s: State, a: Action)
    requires Can(s, a) && !a.Receive? && (a == Deliver ==> s.channels[s.handler.ch].owner != GetAddCode)
    ensures SameGadcChannels(s, Do(s, a))
  {
    hide SetOwed;
    hide Owes;
    hide CommandOf;
  }

  // In order without the GADC call, a step of the others or of the handler
  // leaves alone what belongs to the GADC call.
  lemma OtherStepElsewhere(s: State, a: Action)
    requires CutOff(s) && Can(s, a) && !OwnStep(a)
    ensures SameGadcChannels(s, Do(s, a))
  {
    if a.Receive? {
      ReceiveElsewhere(s, a.c, a.pem);
    } else {
      hide Inv;
      hide LookedUpSince;
      hide ProgressCutOff;
      hide Do;
      QuietStep(s, a);
    }
  }

  // No step but RegisterOwn makes an entry for GADC, and nothing is looked up
  // while that entry is there.
  lemma OtherStepLeadsElsewhere(s: State, a: Action)
    requires CutOff(s) && Can(s, a) && !OwnStep(a)
    ensures LeadsElsewhere(Do(s, a), s.calls[GetAddCode].ch)
  {
    OtherStepElsewhere(s, a);
    if a == Dispatch {
      DispatchElsewhere(s);
    } else {
      StepLeads(s, a);
      OwnersStay(s, a);
      hide Inv;
      hide LookedUpSince;
      hide ProgressCutOff;
      hide Do;
      hide Can;
      StillElsewhere(s, Do(s, a), s.calls[GetAddCode].ch);
    }
  }

  lemma StillElsewhere(s: State, t: State, ch: nat)
    requires LeadsElsewhere(s, ch) && ch < |s.channels| && SameGadcChannels(s, t)
    requires forall i :: 0 <= i < |s.channels| ==> t.channels[i].owner == s.channels[i].owner
    requires t.handler.Sending? ==> t.handler == s.handler
    requires GetAddCode in t.chanMap ==>
      (GetAddCode in s.chanMap && t.chanMap[GetAddCode] == s.chanMap[GetAddCode])
      || (t.chanMap[GetAddCode] == |s.channels| && Dead(t.channels, |s.channels|))
    ensures LeadsElsewhere(t, ch)
  {
  }

  lemma DispatchElsewhere(s: State)
    requires CutOff(s) && s.handler.Fetched?
    ensures LeadsElsewhere(DoDispatch(s), s.calls[GetAddCode].ch)
  {
    assert EntriesInv(s.chanMap, Without(s).calls, s.channels, OwnEntry(s.handler));
    hide Inv;
    hide Severed;
    hide CommandOf;
  }

  lemma StepLeads(s: State, a: Action)
    requires Can(s, a) && !OwnStep(a) && a != Dispatch && GetAddCode in s.calls
    ensures var t := Do(s, a);
      && (t.handler.Sending? ==> t.handler == s.handler)
      && (GetAddCode in t.chanMap ==>
           (GetAddCode in s.chanMap && t.chanMap[GetAddCode] == s.chanMap[GetAddCode])
           || (t.chanMap[GetAddCode] == |s.channels| && Dead(t.channels, |s.channels|)))
  {
    hide SetOwed;
    hide Owes;
    hide CommandOf;
  }

  lemma OwnersStay(s: State, a: Action)
    requires Can(s, a)
    ensures var t := Do(s, a);
      |s.channels| <= |t.channels| && forall i :: 0 <= i < |s.channels| ==> t.channels[i].owner == s.channels[i].owner
  {
    hide SetOwed;
    hide Owes;
    hide CommandOf;
  }

  lemma OtherStepKeepsCut(s: State, a: Action)
    requires CutOff(s) && Can(s, a) && !OwnStep(a)
    ensures CutOff(Do(s, a)) && Do(s, a).calls[GetAddCode] == s.calls[GetAddCode]
    ensures var k := s.calls[GetAddCode];
      k.ch < |s.channels| && InFlight(Do(s, a).channels, Do(s, a).handler, k) == InFlight(s.channels, s.handler, k)
  {
    var t, k := Do(s, a), s.calls[GetAddCode];
    OtherStepElsewhere(s, a);
    OtherStepLeadsElsewhere(s, a);
    OtherStep(s, a);
    StepKeeps(Without(s), a);
    LookedUp(s, a, k.start);
    hide Inv;
    hide Do;
    hide Can;
    hide LookedUpSince;
    hide ProgressCutOff;
    hide Missed;
    SeveredStays(s, t, k);
  }

  // The call's own steps, before it leaves

  lemma InvOwed(s: State, owed: map<Command, nat>)
    requires Inv(s)
    ensures Inv(s.(owed := owed))
  {
    hide CallsInv;
    AllUntouched(s, s.(owed := owed));
  }

  lemma WithoutPhase(s: State, p: Phase)
    requires GetAddCode in s.calls
    ensures Without(SetPhase(s, GetAddCode, p)) == Without(s)
  {
    assert Delete(s.calls[GetAddCode := s.calls[GetAddCode].(phase := p)], GetAddCode) == Delete(s.calls, GetAddCode);
  }

  // Writing, or looking the channel up
  lemma OwnPhaseKeepsCut(s: State, t: State, p: Phase)
    requires CutOff(s) && t.(owed := s.owed) == SetPhase(s, GetAddCode, p)
    requires ProgressCutOff(s.channels, s.calls[GetAddCode].(phase := p))
    ensures CutOff(t)
  {
    hide LookedUpSince;
    WithoutPhase(s, p);
    InvOwed(Without(s), t.owed);
    hide Inv;
    assert Without(t) == Without(s).(owed := t.owed);
    hide ProgressCutOff;
    assert Severed(t, t.calls[GetAddCode]);
  }

  lemma OwnReceiveFrom(s: State)
    requires CutOff(s) && ReadyToReceive(s, GetAddCode)
    ensures s.calls[GetAddCode].phase.from == Some(s.calls[GetAddCode].ch)
  {
    hide Inv;
  }

  lemma OwnReceiveSevered(s: State, pem: bool)
    requires CutOff(s) && ReadyToReceive(s, GetAddCode)
    ensures var t := DoReceive(s, GetAddCode, pem);
      && Severed(t, t.calls[GetAddCode])
      && InFlight(t.channels, t.handler, t.calls[GetAddCode]) == InFlight(s.channels, s.handler, s.calls[GetAddCode])
  {
    hide Inv;
    hide LookedUpSince;
    OwnReceiveFrom(s);
    var k := s.calls[GetAddCode];
    var queue := s.channels[k.ch].queue;
    assert k.consumed + queue == k.consumed + [queue[0]] + queue[1..];
  }

  lemma ReceiveEffect(s: State, c: Command, pem: bool, ch: nat)
    requires ReadyToReceive(s, c) && s.calls[c].phase.from == Some(ch)
    ensures var t := DoReceive(s, c, pem);
      && c in t.calls && t.calls == s.calls[c := t.calls[c]] && |t.channels| == |s.channels|
      && t == s.(channels := t.channels, calls := t.calls, addCode := t.addCode)
      && t.channels[ch] == s.channels[ch].(queue := s.channels[ch].queue[1..])
      && forall i :: 0 <= i < |s.channels| && i != ch ==> t.channels[i] == s.channels[i]
  {
  }

  lemma WithoutIt(calls: map<Command, Call>, k: Call)
    ensures Delete(calls[GetAddCode := k], GetAddCode) == Delete(calls, GetAddCode)
  {
  }

  lemma OwnReceiveChannel(s: State)
    requires CutOff(s) && ReadyToReceive(s, GetAddCode)
    ensures var k := s.calls[GetAddCode];
      k.phase.from == Some(k.ch) && k.ch < |s.channels| && s.channels[k.ch].owner == GetAddCode
  {
    OwnReceiveFrom(s);
    hide Inv;
    hide LookedUpSince;
    hide ProgressCutOff;
  }

  // Only a channel of GADC changes, and the add code.
  lemma OwnReceiveEffect(s: State, pem: bool)
    requires CutOff(s) && ReadyToReceive(s, GetAddCode)
    ensures var u, t := Without(s), Without(DoReceive(s, GetAddCode, pem));
      && t == u.(channels := t.channels, addCode := t.addCode) && |t.channels| == |u.channels|
      && (forall i :: 0 <= i < |u.channels| ==>
           t.channels[i].owner == u.channels[i].owner && |t.channels[i].queue| <= |u.channels[i].queue|)
      && (forall i :: 0 <= i < |u.channels| && u.channels[i].owner != GetAddCode ==> t.channels[i] == u.channels[i])
  {
    hide CutOff;
    hide DoReceive;
    hide Delete;
    OwnReceiveChannel(s);
    ReceiveEffect(s, GetAddCode, pem, s.calls[GetAddCode].ch);
    WithoutIt(s.calls, DoReceive(s, GetAddCode, pem).calls[GetAddCode]);
  }

  lemma ReceiveSparesCall(u: State, t: State, c: Command)
    requires t == u.(channels := t.channels, addCode := t.addCode) && |t.channels| == |u.channels|
    requires forall i :: 0 <= i < |u.channels| && u.channels[i].owner != GetAddCode ==> t.channels[i] == u.channels[i]
    requires c != GetAddCode && c in u.calls && CallInv(u, c, u.calls[c])
    ensures CallInv(t, c, u.calls[c])
  {
    ChannelExists(u, c, u.calls[c]);
    hide CallInv;
    Untouched(u, t, c, u.calls[c]);
  }

  lemma OwnReceiveSparesOthers(s: State, pem: bool)
    requires CutOff(s) && ReadyToReceive(s, GetAddCode)
    ensures Inv(Without(DoReceive(s, GetAddCode, pem)))
  {
    OwnReceiveEffect(s, pem);
    var u, t := Without(s), Without(DoReceive(s, GetAddCode, pem));
    assert GetAddCode !in u.calls;
    hide Without;
    hide Severed;
    hide DoReceive;
    hide CallInv;
    hide ReturnedInv;
    forall c | c in t.calls ensures CallInv(t, c, t.calls[c]) {
      ReceiveSparesCall(u, t, c);
    }
    hide CallsInv;
    AllCalls(t);
  }

  // Deleting an entry that the map has for GADC, if any
  lemma DeleteSparesOthers(s: State, t: State)
    requires GetAddCode in s.calls && Inv(Without(s))
    requires t.calls.Keys <= s.calls.Keys && GetAddCode !in t.calls
    requires Without(s).(calls := t.calls, chanMap := Delete(s.chanMap, GetAddCode), returned := t.returned) == t
    requires t.calls == Without(s).calls && ReturnedInv(t.returned, t.looked)
    ensures Inv(t)
  {
    var u := Without(s);
    EntriesAfterDelete(u, GetAddCode, t.calls);
    hide Without;
    hide CallsInv;
    hide ReturnedInv;
    hide EntriesInv;
    forall c | c in t.calls ensures CallInv(t, c, t.calls[c]) {
      CallOf(u, c);
      ChannelExists(u, c, u.calls[c]);
      hide CallInv;
      Untouched(u, t, c, u.calls[c]);
    }
    AllCalls(t);
  }

  lemma OwnDeleteKeepsCut(s: State)
    requires CutOff(s) && s.calls[GetAddCode].phase.Deleting?
    ensures CutOff(DoDeleteEntry(s, GetAddCode))
  {
    var t := DoDeleteEntry(s, GetAddCode);
    WithoutPhase(s, t.calls[GetAddCode].phase);
    assert ReturnedInv(s.returned, s.looked);
    hide ReturnedInv;
    hide Inv;
    hide LookedUpSince;
    DeleteSparesOthers(s, Without(t));
  }

  lemma OwnWriteKeepsCut(s: State, a: Action)
    requires CutOff(s) && Can(s, a)
      && (a == WriteOne(GetAddCode) || a == FailWrite(GetAddCode) || a == Lookup(GetAddCode))
    ensures var t, k := Do(s, a), s.calls[GetAddCode];
      && CutOff(t) && t.calls[GetAddCode] == k.(phase := t.calls[GetAddCode].phase)
      && t.channels == s.channels && t.handler == s.handler
  {
    hide Inv;
    hide LookedUpSince;
    hide SetOwed;
    hide Owes;
    var t := Do(s, a);
    OwnPhaseKeepsCut(s, t, t.calls[GetAddCode].phase);
  }

  lemma OwnStepKeepsCut(s: State, a: Action)
    requires CutOff(s) && Can(s, a) && OwnStep(a) && !a.Leave?
    ensures CutOff(Do(s, a))
    ensures var t, k := Do(s, a), s.calls[GetAddCode];
      && k.ch < |s.channels| && t.calls[GetAddCode].ch == k.ch && t.calls[GetAddCode].start == k.start
      && InFlight(t.channels, t.handler, t.calls[GetAddCode]) == InFlight(s.channels, s.handler, k)
  {
    hide Inv;
    hide LookedUpSince;
    match a {
      case WriteOne(_) => OwnWriteKeepsCut(s, a);
      case FailWrite(_) => OwnWriteKeepsCut(s, a);
      case Lookup(_) => OwnWriteKeepsCut(s, a);
      case Receive(_, pem) => OwnReceiveSevered(s, pem); OwnReceiveSparesOthers(s, pem);
      case DeleteEntry(_) => OwnDeleteKeepsCut(s);
    }
    hide DoReceive;
    hide DoWrite;
    hide Without;
    hide ProgressCutOff;
  }

  // Leaving, the call takes the interference with it.
  lemma LeaveRestores(s: State)
    requires CutOff(s) && s.calls[GetAddCode].phase.Returning?
    ensures Inv(DoLeave(s, GetAddCode))
  {
    var t, k := DoLeave(s, GetAddCode), s.calls[GetAddCode];
    assert ReturnedInv(s.returned, s.looked);
    assert k.consumed <= LookedUpSince(s.looked, k.start, GetAddCode)
      && ResultOfReplies(GetAddCode, k.consumed, k.phase.outcome) by {
      hide Inv;
      hide LookedUpSince;
      assert k.consumed <= k.consumed + s.channels[k.ch].queue;
    }
    hide LookedUpSince;
    hide ResultOfReplies;
    assert ReturnedInv(t.returned, t.looked);
    hide ReturnedInv;
    hide Inv;
    hide Severed;
    DeleteSparesOthers(s, t);
  }

  // All runs

  ghost predicate Sound(s: State) {
    Inv(s) || CutOff(s)
  }

  // Every step whatever keeps every call either connected or cut off.
  lemma StepKeepsSound(s: State, a: Action)
    requires Sound(s) && Can(s, a)
    ensures Sound(Do(s, a))
  {
    hide Inv;
    if Inv(s) {
      if Clobbers(s, a) {
        ClobberCutsOff(s, a);
      } else {
        StepKeeps(s, a);
      }
    } else if !OwnStep(a) {
      OtherStepKeepsCut(s, a);
    } else if a == Leave(GetAddCode) {
      LeaveRestores(s);
    } else {
      OwnStepKeepsCut(s, a);
    }
  }

  lemma {:induction false} RunKeepsSound(s: State, run: seq<Action>)
    requires Sound(s) && CanRun(s, run)
    ensures Sound(After(s, run))
    decreases |run|
  {
    hide Sound;
    hide Can;
    hide Do;
    if run != [] {
      StepKeepsSound(s, run[0]);
      RunKeepsSound(Do(s, run[0]), run[1..]);
    }
  }

  // What is on its way to a call are the first messages looked up for it.
  lemma SoundCall(s: State, c: Command)
    requires Sound(s) && c in s.calls
    ensures var k := s.calls[c];
      && k.ch < |s.channels| && k.start <= |s.looked|
      && InFlight(s.channels, s.handler, k) <= LookedUpSince(s.looked, k.start, c)
  {
    hide LookedUpSince;
    var k := s.calls[c];
    if Inv(s) {
      CallOf(s, c);
      hide Inv;
    } else if c == GetAddCode {
      hide Inv;
      assert InFlight(s.channels, s.handler, k) == k.consumed + s.channels[k.ch].queue;
    } else {
      CallOf(Without(s), c);
      hide Inv;
      SameCall(s, c, k);
    }
  }

  // In every run, with or without interference: what a call has consumed, what
  // is queued for it and what is being sent to it are, in order, the first of
  // the server's messages of its command looked up since it registered; nothing
  // is made up, duplicated, reordered or crossed between commands. Every call
  // that returned read the first of them, and returned the entry of the last it
  // read.
  lemma NothingCrossed(run: seq<Action>, c: Command)
    requires CanRun(Start, run)
    ensures var t := After(Start, run);
      && t.looked <= Sent(run)
      && (c in t.calls ==>
           InFlight(t.channels, t.handler, t.calls[c]) <= SentBetween(run, t.calls[c].start, |t.looked|, c))
      && (forall r :: r in t.returned && r.command == c ==>
           && r.consumed <= SentBetween(run, r.start, |t.looked|, c)
           && ResultOfReplies(c, r.consumed, r.outcome))
      && (forall i :: 0 <= i < |t.channels| ==> |t.channels[i].queue| <= BufferSize)
  {
    hide Can;
    hide Do;
    hide Sent;
    hide SentBetween;
    hide LookedUpSince;
    hide ResultOfReplies;
    hide InFlight;
    hide Sound;
    SoundStart();
    RunKeepsSound(Start, run);
    LookedIsSent(run);
    var t := After(Start, run);
    SoundRest(t);
    if c in t.calls {
      SoundCall(t, c);
      LookedBetween(run, t.looked, t.calls[c].start, c);
    }
    forall r | r in t.returned && r.command == c
      ensures r.consumed <= SentBetween(run, r.start, |t.looked|, c) && ResultOfReplies(c, r.consumed, r.outcome)
    {
      ReturnedBetween(run, t.returned, t.looked, r);
    }
  }

  lemma SoundStart()
    ensures Sound(Start)
  {
    StartInv();
  }

  lemma SoundRest(s: State)
    requires Sound(s)
    ensures QueuesInv(s.channels) && ReturnedInv(s.returned, s.looked)
  {
    hide CallsInv;
    hide EntriesInv;
    hide SendingInv;
    hide Severed;
  }

  // The add code is the data of the first reply.
  lemma AddCodeReceived(run: seq<Action>)
    requires CanRun(Start, run)
    ensures var s := After(Start, run);
      GetAddCode in s.calls && s.calls[GetAddCode].consumed != [] ==>
        s.addCode == s.calls[GetAddCode].consumed[0].data
  {
    SoundStart();
    RunKeepsSound(Start, run);
    hide Sound;
    var s := After(Start, run);
    if GetAddCode in s.calls && s.calls[GetAddCode].consumed != [] {
      SoundAddCode(s);
    }
  }

  lemma SoundAddCode(s: State)
    requires Sound(s) && GetAddCode in s.calls && s.calls[GetAddCode].consumed != []
    ensures s.addCode == s.calls[GetAddCode].consumed[0].data
  {
    hide LookedUpSince;
    hide InFlight;
    if Inv(s) {
      CallOf(s, GetAddCode);
    }
    hide Inv;
  }

  // Messages that get lost

  // A message is looked up for a registered call whose entry is missing.
  predicate Loses(s: State, a: Action)
    requires Can(s, a)
  {
    a == Dispatch && CommandOf(s.handler.m) == Some(GetAddCode)
    && GetAddCode in s.calls && Registered(s.calls[GetAddCode].phase) && GetAddCode !in s.chanMap
  }

  predicate NeverLoses(s: State, run: seq<Action>)
    requires CanRun(s, run)
    decreases |run|
  {
    run == [] || (!Loses(s, run[0]) && NeverLoses(Do(s, run[0]), run[1..]))
  }

  // Every message looked up for a registered call is on its way to it.
  ghost predicate CompleteFor(s: State, c: Command) {
    c in s.calls && Registered(s.calls[c].phase) ==>
      InFlight(s.channels, s.handler, s.calls[c]) == LookedUpSince(s.looked, s.calls[c].start, c)
  }

  ghost predicate Complete(s: State) {
    forall c :: CompleteFor(s, c)
  }

  ghost predicate AlwaysComplete(s: State, run: seq<Action>)
    requires CanRun(s, run)
    decreases |run|
  {
    Complete(s) && (run == [] || AlwaysComplete(Do(s, run[0]), run[1..]))
  }

  lemma InvComplete(s: State, c: Command)
    requires Inv(s)
    ensures CompleteFor(s, c) && (c in s.calls && Registered(s.calls[c].phase) ==> c in s.chanMap)
  {
    hide LookedUpSince;
    if c in s.calls {
      CallOf(s, c);
    }
  }

  lemma OthersComplete(s: State, c: Command)
    requires CutOff(s) && c != GetAddCode
    ensures CompleteFor(s, c)
  {
    InvComplete(Without(s), c);
    hide Inv;
    hide LookedUpSince;
    hide Severed;
  }

  // While the call is cut off, handleGetPubKey's entry is not there for a lookup.
  lemma NoEntryToLookUp(s: State)
    requires CutOff(s) && s.handler.Fetched?
    ensures GetAddCode !in s.chanMap
  {
    assert EntriesInv(s.chanMap, Without(s).calls, s.channels, OwnEntry(s.handler));
    hide Inv;
    hide Severed;
  }

  lemma CutOffLoses(s: State, a: Action)
    requires CutOff(s) && CompleteFor(s, GetAddCode) && Can(s, a) && a != Leave(GetAddCode)
    ensures CutOff(Do(s, a)) && (CompleteFor(Do(s, a), GetAddCode) <==> !Loses(s, a))
  {
    var k := s.calls[GetAddCode];
    assert k.start <= |s.looked|;
    LookedUp(s, a, k.start);
    if OwnStep(a) {
      OwnStepKeepsCut(s, a);
      StaysRegistered(s, a);
    } else {
      OtherStepKeepsCut(s, a);
      if a == Dispatch {
        NoEntryToLookUp(s);
      }
    }
    hide CutOff;
    hide LookedUpSince;
    hide InFlight;
    hide CommandOf;
    hide Do;
    hide Can;
  }

  lemma StaysRegistered(s: State, a: Action)
    requires Can(s, a) && OwnStep(a) && a != Leave(GetAddCode)
    ensures GetAddCode in s.calls && GetAddCode in Do(s, a).calls && a != Dispatch
    ensures Registered(Do(s, a).calls[GetAddCode].phase) ==> Registered(s.calls[GetAddCode].phase)
  {
    hide SetOwed;
    hide Owes;
  }

  lemma StepCompletes(s: State, a: Action)
    requires Sound(s) && Complete(s) && Can(s, a)
    ensures Complete(Do(s, a)) <==> !Loses(s, a)
  {
    hide Inv;
    hide CompleteFor;
    var t := Do(s, a);
    if Inv(s) {
      InvComplete(s, GetAddCode);
      if Clobbers(s, a) {
        ClobberCompletes(s, a);
      } else {
        StepKeeps(s, a);
        forall c ensures CompleteFor(t, c) {
          InvComplete(t, c);
        }
      }
    } else if a == Leave(GetAddCode) {
      LeaveRestores(s);
      forall c ensures CompleteFor(t, c) {
        InvComplete(t, c);
      }
    } else {
      assert CompleteFor(s, GetAddCode);
      CutOffLoses(s, a);
      forall c | c != GetAddCode ensures CompleteFor(t, c) {
        OthersComplete(t, c);
      }
    }
  }

  lemma ClobberCompletesCall(s: State, a: Action)
    requires Inv(s) && CompleteFor(s, GetAddCode) && Can(s, a) && Clobbers(s, a)
    ensures CompleteFor(Do(s, a), GetAddCode)
  {
    ClobberCutsOff(s, a);
    ClobberEffect(s, a);
    hide Inv;
    hide CutOff;
    hide LookedUpSince;
    hide InFlight;
    hide Do;
    hide Can;
  }

  lemma ClobberCompletes(s: State, a: Action)
    requires Inv(s) && Complete(s) && Can(s, a) && Clobbers(s, a)
    ensures Complete(Do(s, a))
  {
    assert CompleteFor(s, GetAddCode);
    hide Inv;
    hide CutOff;
    hide CompleteFor;
    hide Do;
    hide Can;
    ClobberCutsOff(s, a);
    ClobberCompletesCall(s, a);
    forall c | c != GetAddCode ensures CompleteFor(Do(s, a), c) {
      OthersComplete(Do(s, a), c);
    }
  }

  // Routing is complete throughout a run exactly if the handler never looks up
  // a message for a registered GADC call whose entry handleGetPubKey replaced
  // and deleted: interference loses exactly the messages that come after it.
  lemma {:induction false} CompleteExactly(s: State, run: seq<Action>)
    requires Inv(s) || (CutOff(s) && Complete(s))
    requires CanRun(s, run)
    ensures AlwaysComplete(s, run) <==> NeverLoses(s, run)
    decreases |run|
  {
    hide Inv;
    hide CutOff;
    hide Can;
    hide Do;
    hide Loses;
    if Inv(s) {
      forall c ensures CompleteFor(s, c) {
        InvComplete(s, c);
      }
    }
    hide CompleteFor;
    if run != [] {
      var t := Do(s, run[0]);
      StepCompletes(s, run[0]);
      StepKeepsSound(s, run[0]);
      if Complete(t) {
        CompleteExactly(t, run[1..]);
      }
    }
  }

  // A run that loses a message: the reply to the call whose entry was deleted
  const Loss: seq<Action> := Interference + [ServerSend(Message([], 0, 5)), Fetch]

  lemma InterferenceLoses()
    ensures CanRun(Start, Loss) && Can(After(Start, Loss), Dispatch) && Loses(After(Start, Loss), Dispatch)
  {
    hide CanRun;
    hide After;
    InterferenceStrands();
    assert Loss[..9] == Interference && Loss[..11] == Loss;
    assert CommandOf(Message([], 0, 5)) == Some(GetAddCode);
    var s10 := OneFurther(Start, Loss, 9);
    var s11 := OneFurther(Start, Loss, 10);
  }
}
