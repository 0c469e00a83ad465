// Every step keeps the routing invariant, unless handleGetPubKey touches the
// entry of a registered GADC call.
module DemuxRouting {
  import opened Tables
  import opened Framing
  import opened Demux

  // One more message is looked up.
  lemma LookOneUp(looked: seq<Message>, start: nat, c: Command, m: Message)
    requires start <= |looked|
    ensures LookedUpSince(looked + [m], start, c) ==
            LookedUpSince(looked, start, c) + (if CommandOf(m) == Some(c) then [m] else [])
  {
    assert (looked + [m])[start..] == looked[start..] + [m];
    assert (looked[start..] + [m])[..|looked[start..]|] == looked[start..];
  }

  // A step that leaves a call, its entry, its channel and the log alone
  lemma Untouched(s: State, t: State, c: Command, k: Call)
    requires CallInv(s, c, k) && t.looked == s.looked
    requires |s.channels| <= |t.channels| && s.channels[k.ch] == t.channels[k.ch]
    requires Pending(s.handler, k.ch) == Pending(t.handler, k.ch)
    requires c in s.chanMap && Registered(k.phase) ==> c in t.chanMap && t.chanMap[c] == s.chanMap[c]
    requires c == GetAddCode && k.consumed != [] ==> s.addCode == t.addCode
    ensures CallInv(t, c, k)
  {
    hide LookedUpSince;
    hide ProgressOfReplies;
  }

  lemma AllUntouched(s: State, t: State)
    requires CallsInv(s) && t.looked == s.looked && t.calls == s.calls
    requires |s.channels| <= |t.channels| && t.channels[..|s.channels|] == s.channels
    requires forall ch: nat :: Pending(s.handler, ch) == Pending(t.handler, ch)
    requires forall c :: c in s.calls && c in s.chanMap && Registered(s.calls[c].phase) ==>
      c in t.chanMap && t.chanMap[c] == s.chanMap[c]
    requires s.addCode == t.addCode
    ensures CallsInv(t)
  {
    hide CallInv;
    forall c | c in t.calls ensures CallInv(t, c, t.calls[c]) {
      var k := s.calls[c];
      assert CallInv(s, c, k);
      assert k.ch < |s.channels| by { ChannelExists(s, c, k); }
      assert t.channels[..|s.channels|][k.ch] == t.channels[k.ch];
      Untouched(s, t, c, k);
    }
  }

  lemma ChannelExists(s: State, c: Command, k: Call)
    requires CallInv(s, c, k)
    ensures k.ch < |s.channels| && s.channels[k.ch].owner == c && k.start <= |s.looked|
  {
  }

  // Steps of the handler

  lemma KeepsServerSend(s: State, m: Message)
    requires Inv(s)
    ensures Inv(DoServerSend(s, m))
  {
    hide CallsInv;
    AllUntouched(s, DoServerSend(s, m));
  }

  lemma KeepsFetch(s: State, a: Action)
    requires Inv(s) && Can(s, a) && (a == Fetch || a == StopReading)
    ensures Inv(Do(s, a))
  {
    hide CallsInv;
    AllUntouched(s, Do(s, a));
  }

  lemma DispatchedCall(s: State, c: Command, k: Call)
    requires s.handler.Fetched? && CallInv(s, c, k)
    requires forall d :: d in s.chanMap && s.chanMap[d] == k.ch ==> d == c && Registered(k.phase)
    ensures CallInv(DoDispatch(s), c, k)
  {
    hide LookedUpSince;
    hide ProgressOfReplies;
    hide Callable;
    hide CommandOf;
    LookOneUp(s.looked, k.start, c, s.handler.m);
    DispatchedInFlight(s, c, k);
  }

  lemma DispatchedInFlight(s: State, c: Command, k: Call)
    requires s.handler.Fetched? && k.ch < |s.channels|
    requires forall d :: d in s.chanMap && s.chanMap[d] == k.ch ==> d == c && Registered(k.phase)
    requires Registered(k.phase) ==> c in s.chanMap && s.chanMap[c] == k.ch
    ensures InFlight(s.channels, DoDispatch(s).handler, k) ==
            InFlight(s.channels, s.handler, k) +
            (if Registered(k.phase) && CommandOf(s.handler.m) == Some(c) then [s.handler.m] else [])
  {
    hide CommandOf;
  }

  lemma ReturnedAfterLookup(returned: seq<Return>, looked: seq<Message>, m: Message)
    requires ReturnedInv(returned, looked)
    ensures ReturnedInv(returned, looked + [m])
  {
    hide LookedUpSince;
    hide ResultOfReplies;
    forall i | 0 <= i < |returned|
      ensures returned[i].consumed <= LookedUpSince(looked + [m], returned[i].start, returned[i].command)
    {
      LookOneUp(looked, returned[i].start, returned[i].command, m);
    }
  }

  // No entry leads to the channel of a call but its own.
  lemma DispatchedCallOf(s: State, c: Command)
    requires Inv(s) && s.handler.Fetched? && c in s.calls
    ensures CallInv(DoDispatch(s), c, s.calls[c])
  {
    hide QueuesInv;
    hide ReturnedInv;
    CallOf(s, c);
    ChannelExists(s, c, s.calls[c]);
    hide CallInv;
    hide CallsInv;
    DispatchedCall(s, c, s.calls[c]);
  }

  lemma DispatchedRest(s: State)
    requires EntriesInv(s.chanMap, s.calls, s.channels, OwnEntry(s.handler)) && QueuesInv(s.channels)
      && s.handler.Fetched?
    ensures var t := DoDispatch(s);
      && EntriesInv(t.chanMap, t.calls, t.channels, OwnEntry(t.handler))
      && SendingInv(t.handler, t.channels) && QueuesInv(t.channels)
      && t.calls == s.calls && t.returned == s.returned && t.looked == s.looked + [s.handler.m]
  {
    hide CommandOf;
  }

  lemma KeepsDispatch(s: State)
    requires Inv(s) && s.handler.Fetched?
    ensures Inv(DoDispatch(s))
  {
    hide CallInv;
    hide ReturnedInv;
    hide QueuesInv;
    hide EntriesInv;
    hide SendingInv;
    hide DoDispatch;
    forall c | c in s.calls ensures CallInv(DoDispatch(s), c, s.calls[c]) {
      DispatchedCallOf(s, c);
    }
    DispatchedRest(s);
    ReturnedAfterLookup(s.returned, s.looked, s.handler.m);
  }

  lemma DeliveredCall(s: State, c: Command, k: Call)
    requires s.handler.Sending? && s.handler.ch < |s.channels| && |s.channels[s.handler.ch].queue| < BufferSize
      && CallInv(s, c, k)
    ensures CallInv(DoDeliver(s), c, k)
  {
    hide LookedUpSince;
    hide ProgressOfReplies;
    var t := DoDeliver(s);
    if k.ch == s.handler.ch {
      assert k.consumed + (s.channels[k.ch].queue + [s.handler.m]) ==
        k.consumed + s.channels[k.ch].queue + [s.handler.m];
    }
    assert InFlight(t.channels, t.handler, k) == InFlight(s.channels, s.handler, k);
  }

  lemma KeepsDeliver(s: State)
    requires Inv(s) && s.handler.Sending? && s.handler.ch < |s.channels|
      && |s.channels[s.handler.ch].queue| < BufferSize
    ensures Inv(DoDeliver(s))
  {
    hide CallInv;
    hide ReturnedInv;
    forall c | c in s.calls ensures CallInv(DoDeliver(s), c, s.calls[c]) {
      DeliveredCall(s, c, s.calls[c]);
    }
  }

  // Steps of handleGetPubKey

  lemma KeepsRegisterOwn(s: State)
    requires Inv(s) && Can(s, RegisterOwn) && !Clobbers(s, RegisterOwn)
    ensures Inv(Do(s, RegisterOwn))
  {
    hide CallsInv;
    hide ReturnedInv;
    AllUntouched(s, Do(s, RegisterOwn));
  }

  lemma KeepsAnswerKey(s: State)
    requires Inv(s) && Can(s, AnswerKey)
    ensures Inv(Do(s, AnswerKey))
  {
    hide CallsInv;
    hide ReturnedInv;
    AllUntouched(s, Do(s, AnswerKey));
  }

  lemma KeepsDeleteOwn(s: State)
    requires Inv(s) && Can(s, DeleteOwn) && !Clobbers(s, DeleteOwn)
    ensures Inv(Do(s, DeleteOwn))
  {
    hide Delete;
    hide CallsInv;
    hide ReturnedInv;
    AllUntouched(s, Do(s, DeleteOwn));
  }

  // Steps of the calls

  // The other calls are untouched by what one call does to itself.
  lemma OthersUntouched(s: State, t: State, c: Command)
    requires CallsInv(s) && c in t.calls && CallInv(t, c, t.calls[c])
    requires t.looked == s.looked && t.handler == s.handler && |s.channels| <= |t.channels|
    requires t.calls == s.calls[c := t.calls[c]]
    requires forall i :: 0 <= i < |s.channels| && s.channels[i].owner != c ==> t.channels[i] == s.channels[i]
    requires forall d :: d in s.chanMap && d != c ==> d in t.chanMap && t.chanMap[d] == s.chanMap[d]
    requires s.addCode == t.addCode || c == GetAddCode
    ensures CallsInv(t)
  {
    hide CallInv;
    forall d | d in t.calls ensures CallInv(t, d, t.calls[d]) {
      if d != c {
        ChannelExists(s, d, s.calls[d]);
        Untouched(s, t, d, s.calls[d]);
      }
    }
  }

  lemma CallOf(s: State, c: Command)
    requires CallsInv(s) && c in s.calls
    ensures CallInv(s, c, s.calls[c])
  {
  }

  lemma BegunCall(s: State, c: Command)
    requires Callable(c) && c !in s.calls && SendingInv(s.handler, s.channels)
    ensures var t := DoBegin(s, c); CallInv(t, c, t.calls[c])
  {
    var t := DoBegin(s, c);
    assert s.looked[|s.looked|..] == [];
    assert t.channels[|s.channels|] == Channel(c, []);
  }

  lemma EntriesAfterBegin(s: State, c: Command)
    requires EntriesInv(s.chanMap, s.calls, s.channels, OwnEntry(s.handler)) && c !in s.calls
    ensures var t := DoBegin(s, c); EntriesInv(t.chanMap, t.calls, t.channels, OwnEntry(t.handler))
  {
  }

  lemma KeepsBegin(s: State, c: Command)
    requires Inv(s) && Callable(c) && c !in s.calls
    ensures Inv(DoBegin(s, c))
  {
    hide EntriesInv;
    EntriesAfterBegin(s, c);
    hide CallsInv;
    hide CallInv;
    hide ReturnedInv;
    BegunCall(s, c);
    OthersUntouched(s, DoBegin(s, c), c);
  }

  // A registered call moves on without reading, and stays registered.
  lemma KeepsSetPhase(s: State, t: State, c: Command, p: Phase)
    requires Inv(s) && c in s.calls && t.(owed := s.owed) == SetPhase(s, c, p)
    requires Registered(s.calls[c].phase) && Registered(p) && ProgressOfReplies(c, s.calls[c].(phase := p))
    ensures Inv(t)
  {
    hide QueuesInv;
    hide SendingInv;
    hide CallsInv;
    hide CallInv;
    hide ReturnedInv;
    CallOf(s, c);
    PhaseSet(s, t, c, p);
    OthersUntouched(s, t, c);
  }

  lemma PhaseSet(s: State, t: State, c: Command, p: Phase)
    requires c in s.calls && CallInv(s, c, s.calls[c]) && t.(owed := s.owed) == SetPhase(s, c, p)
    requires Registered(s.calls[c].phase) && Registered(p) && ProgressOfReplies(c, s.calls[c].(phase := p))
    ensures CallInv(t, c, t.calls[c])
  {
    hide LookedUpSince;
  }

  lemma KeepsWriting(s: State, a: Action)
    requires Inv(s) && Can(s, a) && (a.WriteOne? || a.FailWrite? || a.Lookup?)
    ensures Inv(Do(s, a))
  {
    hide CallsInv;
    hide ReturnedInv;
    hide LookedUpSince;
    CallOf(s, a.c);
    var t := Do(s, a);
    KeepsSetPhase(s, t, a.c, t.calls[a.c].phase);
  }

  lemma ReceivedCall(s: State, c: Command, pem: bool)
    requires ReadyToReceive(s, c) && CallInv(s, c, s.calls[c])
    ensures var t := DoReceive(s, c, pem); CallInv(t, c, t.calls[c])
  {
    hide LookedUpSince;
    var t := DoReceive(s, c, pem);
    var k := s.calls[c];
    assert k.consumed + s.channels[k.ch].queue ==
      k.consumed + [s.channels[k.ch].queue[0]] + s.channels[k.ch].queue[1..];
  }

  lemma KeepsReceive(s: State, c: Command, pem: bool)
    requires Inv(s) && ReadyToReceive(s, c)
    ensures Inv(DoReceive(s, c, pem))
  {
    hide CallsInv;
    hide CallInv;
    hide ReturnedInv;
    CallOf(s, c);
    FromOwnChannel(s, c);
    ReceivedCall(s, c, pem);
    ChannelExists(s, c, s.calls[c]);
    OthersUntouched(s, DoReceive(s, c, pem), c);
  }

  lemma FromOwnChannel(s: State, c: Command)
    requires c in s.calls && CallInv(s, c, s.calls[c]) && s.calls[c].phase.Receiving?
    ensures s.calls[c].phase.from == Some(s.calls[c].ch)
  {
  }

  lemma EntriesAfterDelete(s: State, c: Command, calls: map<Command, Call>)
    requires EntriesInv(s.chanMap, s.calls, s.channels, OwnEntry(s.handler))
    requires forall d :: d in s.calls && d != c ==> d in calls && calls[d] == s.calls[d]
    ensures EntriesInv(Delete(s.chanMap, c), calls, s.channels, OwnEntry(s.handler))
  {
    hide Delete;
  }

  lemma DeletedEntry(s: State, c: Command)
    requires c in s.calls && s.calls[c].phase.Deleting? && CallInv(s, c, s.calls[c])
    ensures var t := DoDeleteEntry(s, c); CallInv(t, c, t.calls[c]) && !Registered(t.calls[c].phase)
  {
    hide Delete;
    hide LookedUpSince;
  }

  lemma KeepsDeleteEntry(s: State, c: Command)
    requires Inv(s) && c in s.calls && s.calls[c].phase.Deleting?
    ensures Inv(DoDeleteEntry(s, c))
  {
    hide Delete;
    hide QueuesInv;
    hide SendingInv;
    hide EntriesInv;
    hide CallsInv;
    hide CallInv;
    hide ReturnedInv;
    EntriesAfterDelete(s, c, DoDeleteEntry(s, c).calls);
    CallOf(s, c);
    DeletedEntry(s, c);
    OthersUntouched(s, DoDeleteEntry(s, c), c);
  }

  lemma FinishedCall(s: State, c: Command)
    requires c in s.calls && s.calls[c].phase.Returning? && CallInv(s, c, s.calls[c])
    ensures var k := s.calls[c];
      k.start <= |s.looked| && ResultOfReplies(c, k.consumed, k.phase.outcome)
      && k.consumed <= LookedUpSince(s.looked, k.start, c)
  {
    hide LookedUpSince;
    hide ResultOfReplies;
    var k := s.calls[c];
    assert k.consumed <= InFlight(s.channels, s.handler, k);
  }

  lemma KeepsLeave(s: State, c: Command)
    requires Inv(s) && c in s.calls && s.calls[c].phase.Returning?
    ensures Inv(DoLeave(s, c))
  {
    hide Delete;
    hide QueuesInv;
    hide SendingInv;
    hide EntriesInv;
    EntriesAfterDelete(s, c, DoLeave(s, c).calls);
    hide CallInv;
    hide LookedUpSince;
    hide ResultOfReplies;
    CallOf(s, c);
    FinishedCall(s, c);
    var t := DoLeave(s, c);
    forall d | d in t.calls ensures CallInv(t, d, t.calls[d]) {
      ChannelExists(s, d, s.calls[d]);
      Untouched(s, t, d, s.calls[d]);
    }
  }

  lemma StepKeeps(s: State, a: Action)
    requires Inv(s) && Can(s, a) && !Clobbers(s, a)
    ensures Inv(Do(s, a))
  {
    hide Inv;
    match a
    case ServerSend(m) => KeepsServerSend(s, m);
    case Fetch => KeepsFetch(s, a);
    case StopReading => KeepsFetch(s, a);
    case Dispatch => KeepsDispatch(s);
    case Deliver => KeepsDeliver(s);
    case RegisterOwn => KeepsRegisterOwn(s);
    case AnswerKey => KeepsAnswerKey(s);
    case DeleteOwn => KeepsDeleteOwn(s);
    case Begin(c) => KeepsBegin(s, c);
    case WriteOne(_) => KeepsWriting(s, a);
    case FailWrite(_) => KeepsWriting(s, a);
    case Lookup(_) => KeepsWriting(s, a);
    case Receive(c, pem) => KeepsReceive(s, c, pem);
    case DeleteEntry(c) => KeepsDeleteEntry(s, c);
    case Leave(c) => KeepsLeave(s, c);
  }
}
