// Whole runs of the client: what routing means for the server's messages, and
// what happens when handleGetPubKey interferes.
module DemuxRuns {
  import opened Tables
  import opened Framing
  import opened Demux
  import opened DemuxRouting

  predicate CanRun(s: State, run: seq<Action>)
    decreases |run|
  {
    run == [] || (Can(s, run[0]) && CanRun(Do(s, run[0]), run[1..]))
  }

  function After(s: State, run: seq<Action>): State
    requires CanRun(s, run)
    decreases |run|
  {
    if run == [] then s else After(Do(s, run[0]), run[1..])
  }

  predicate NeverClobbers(s: State, run: seq<Action>)
    requires CanRun(s, run)
    decreases |run|
  {
    run == [] || (!Clobbers(s, run[0]) && NeverClobbers(Do(s, run[0]), run[1..]))
  }

  // One more step at the end of a run
  lemma {:induction false} Extended(s: State, run: seq<Action>, a: Action) returns (t: State)
    requires CanRun(s, run) && Can(After(s, run), a)
    ensures CanRun(s, run + [a]) && After(s, run + [a]) == t == Do(After(s, run), a)
    decreases |run|
  {
    hide Can;
    hide Do;
    t := Do(After(s, run), a);
    if run == [] {
      assert CanRun(t, []) && After(t, []) == t;
      assert (run + [a])[1..] == [];
    } else {
      var _ := Extended(Do(s, run[0]), run[1..], a);
      assert (run + [a])[1..] == run[1..] + [a];
    }
  }

  lemma StartInv()
    ensures Inv(Start)
  {
  }

  // Without interference the routing invariant holds after every run.
  lemma {:induction false} RunKeeps(s: State, run: seq<Action>)
    requires Inv(s) && CanRun(s, run) && NeverClobbers(s, run)
    ensures Inv(After(s, run))
    decreases |run|
  {
    hide Inv;
    hide Can;
    hide Do;
    hide Clobbers;
    if run != [] {
      StepKeeps(s, run[0]);
      RunKeeps(Do(s, run[0]), run[1..]);
    }
  }

  // What the server sent, and what of it the handler holds but has not yet
  // looked up
  function Sent(run: seq<Action>): seq<Message> {
    if run == [] then [] else (if run[0].ServerSend? then [run[0].m] else []) + Sent(run[1..])
  }

  function InHand(handler: Handler): seq<Message> {
    if handler.Fetched? then [handler.m] else []
  }

  lemma StepConserves(s: State, a: Action)
    requires Can(s, a)
    ensures var t := Do(s, a);
      t.looked + InHand(t.handler) + t.wire ==
      s.looked + InHand(s.handler) + s.wire + (if a.ServerSend? then [a.m] else [])
  {
    if a == Fetch {
      assert s.wire == [s.wire[0]] + s.wire[1..];
    }
  }

  // A command code outside the table ends the client when it is looked up, and
  // nothing else does.
  lemma UnknownCodePanics(s: State, a: Action)
    requires Can(s, a)
    ensures Do(s, a).handler == Crashed <==> a == Dispatch && s.handler.m.commandCode > 12
    ensures Do(s, a).handler == Crashed ==> forall b :: !Can(Do(s, a), b)
  {
    hide SetOwed;
    hide Owes;
  }

  // The handler blocks exactly on a channel that holds ten messages.
  lemma FullChannelBlocks(s: State)
    requires s.handler.Sending? && s.handler.ch < |s.channels|
    ensures Can(s, Deliver) <==> |s.channels[s.handler.ch].queue| < 10
  {
  }

  // The table decides which command a message belongs to.
  lemma CommandOfExact(m: Message, c: Command)
    ensures CommandOf(m) == Some(c) <==> m.commandCode == c.Code()
  {
    CommandTableInverse(c);
    if m.commandCode < 13 {
      CommandTableInverse(AllCommands[m.commandCode]);
      CodeAt(m.commandCode);
    }
  }

  lemma CodeAt(i: nat)
    requires i < 13
    ensures AllCommands[i].Code() == i
  {
  }

  // Messages are looked up in the order sent; none is lost or made up before.
  lemma {:induction false} RunConserves(s: State, run: seq<Action>)
    requires CanRun(s, run)
    ensures var t := After(s, run);
      t.looked + InHand(t.handler) + t.wire == s.looked + InHand(s.handler) + s.wire + Sent(run)
    decreases |run|
  {
    hide Can;
    hide Do;
    if run != [] {
      StepConserves(s, run[0]);
      RunConserves(Do(s, run[0]), run[1..]);
    }
  }

  // The messages of command c among those numbered from `start` up to `end`
  function SentBetween(run: seq<Action>, start: nat, end: nat, c: Command): seq<Message> {
    if start <= end <= |Sent(run)| then Filter(Sent(run)[start..end], c) else []
  }

  // From the start, what was looked up is the beginning of what was sent.
  lemma LookedIsSent(run: seq<Action>)
    requires CanRun(Start, run)
    ensures After(Start, run).looked <= Sent(run)
  {
    hide Can;
    hide Do;
    RunConserves(Start, run);
    var t := After(Start, run);
    assert Start.looked + InHand(Start.handler) + Start.wire + Sent(run) == Sent(run);
    assert t.looked + InHand(t.handler) + t.wire == t.looked + (InHand(t.handler) + t.wire);
  }

  lemma LookedBetween(run: seq<Action>, looked: seq<Message>, start: nat, c: Command)
    requires looked <= Sent(run) && start <= |looked|
    ensures LookedUpSince(looked, start, c) == SentBetween(run, start, |looked|, c)
  {
    hide Sent;
    hide Filter;
    assert Sent(run)[start..|looked|] == looked[start..];
  }

  lemma ReturnedBetween(run: seq<Action>, returned: seq<Return>, looked: seq<Message>, r: Return)
    requires looked <= Sent(run) && ReturnedInv(returned, looked) && r in returned
    ensures r.consumed <= SentBetween(run, r.start, |looked|, r.command)
    ensures ResultOfReplies(r.command, r.consumed, r.outcome)
  {
    hide Sent;
    hide LookedUpSince;
    hide SentBetween;
    hide ResultOfReplies;
    LookedBetween(run, looked, r.start, r.command);
  }

  // In every interleaving without such interference, for every registered
  // call: consumed, queued and about to be queued are together exactly the
  // server's messages of its command looked up since it registered, in order.
  // Every call that finished read the first of them, and returned the entry
  // of the last it read.
  lemma RoutingOverRuns(run: seq<Action>, c: Command)
    requires CanRun(Start, run) && NeverClobbers(Start, run)
    ensures var t := After(Start, run);
      && t.looked <= Sent(run)
      && (c in t.calls && Registered(t.calls[c].phase) ==>
           InFlight(t.channels, t.handler, t.calls[c]) == SentBetween(run, t.calls[c].start, |t.looked|, c))
      && (forall r :: r in t.returned && r.command == c ==>
           && r.consumed <= SentBetween(run, r.start, |t.looked|, c)
           && ResultOfReplies(c, r.consumed, r.outcome))
      && (forall i :: 0 <= i < |t.channels| ==> |t.channels[i].queue| <= BufferSize)
  {
    hide Can;
    hide Do;
    hide Sent;
    hide SentBetween;
    hide LookedUpSince;
    hide ResultOfReplies;
    hide InFlight;
    StartInv();
    RunKeeps(Start, run);
    LookedIsSent(run);
    var t := After(Start, run);
    if c in t.calls {
      ChannelExists(t, c, t.calls[c]);
      CallOf(t, c);
      LookedBetween(run, t.looked, t.calls[c].start, c);
    }
    forall r | r in t.returned && r.command == c
      ensures r.consumed <= SentBetween(run, r.start, |t.looked|, c) && ResultOfReplies(c, r.consumed, r.outcome)
    {
      ReturnedBetween(run, t.returned, t.looked, r);
    }
  }

  // A call that waits on a nil channel waits forever.

  predicate Hung(s: State, c: Command) {
    c in s.calls && s.calls[c].phase.Receiving? && s.calls[c].phase.from == None
  }

  lemma StepKeepsHung(s: State, a: Action, c: Command)
    requires Hung(s, c) && Can(s, a)
    ensures Hung(Do(s, a), c)
  {
    hide SetOwed;
    hide Owes;
    hide CommandOf;
  }

  lemma {:induction false} HungForever(s: State, run: seq<Action>, c: Command)
    requires Hung(s, c) && CanRun(s, run)
    ensures Hung(After(s, run), c)
    decreases |run|
  {
    hide Hung;
    hide Can;
    hide Do;
    if run != [] {
      StepKeepsHung(s, run[0], c);
      HungForever(Do(s, run[0]), run[1..], c);
    }
  }

  // A request for this client's key that arrives during a GADC call can delete
  // the call's entry before the call looks it up.
  const Interference: seq<Action> := [
    Begin(GetAddCode), ServerSend(Message([], 0, 3)), Fetch, Dispatch, RegisterOwn, AnswerKey, DeleteOwn,
    WriteOne(GetAddCode), Lookup(GetAddCode)
  ]

  // The request is fetched while the call registers; the handler's channel
  // replaces the call's; the entry is gone.
  const Requested: State := Start.(
    handler := Fetched(Message([], 0, 3)), chanMap := map[GetAddCode := 0], channels := [Channel(GetAddCode, [])],
    calls := map[GetAddCode := Call(0, 0, [], Writing(1))])

  const Replaced: State := Requested.(
    looked := [Message([], 0, 3)], handler := Unregistering, chanMap := map[GetAddCode := 1],
    channels := [Channel(GetAddCode, []), Channel(GetAddCode, [])])

  lemma InterferenceRequests()
    ensures CanRun(Start, Interference[..3]) && After(Start, Interference[..3]) == Requested
  {
    assert Interference[..0] == [];
    assert CanRun(Start, Interference[..0]) && After(Start, Interference[..0]) == Start;
    hide CanRun;
    hide After;
    var s1 := OneFurther(Start, Interference, 0);
    var s2 := OneFurther(Start, Interference, 1);
    var s3 := OneFurther(Start, Interference, 2);
  }

  lemma InterferenceReplaces()
    ensures CanRun(Start, Interference[..6]) && After(Start, Interference[..6]) == Replaced
  {
    hide CanRun;
    hide After;
    InterferenceRequests();
    assert CommandOf(Requested.handler.m) == Some(GetPubKey);
    var s4 := OneFurther(Start, Interference, 3);
    var s5 := OneFurther(Start, Interference, 4);
    var s6 := OneFurther(Start, Interference, 5);
  }

  // The call waits on nil, its entry gone and two replies owed.
  const Stranded: State := Replaced.(
    handler := Idle, chanMap := map[], calls := map[GetAddCode := Call(0, 0, [], Receiving(2, None))],
    owed := map[GetAddCode := 2])

  lemma InterferenceStrands()
    ensures CanRun(Start, Interference) && After(Start, Interference) == Stranded
  {
    hide CanRun;
    hide After;
    InterferenceReplaces();
    var s7 := OneFurther(Start, Interference, 6);
    var s8 := OneFurther(Start, Interference, 7);
    var s9 := OneFurther(Start, Interference, 8);
    assert Interference[..9] == Interference;
  }

  lemma InterferenceHangs()
    ensures CanRun(Start, Interference) && Hung(After(Start, Interference), GetAddCode)
  {
    hide CanRun;
    hide After;
    InterferenceStrands();
  }

  lemma OneFurther(s: State, run: seq<Action>, n: nat) returns (t: State)
    requires n < |run| && CanRun(s, run[..n]) && Can(After(s, run[..n]), run[n])
    ensures CanRun(s, run[..n + 1]) && After(s, run[..n + 1]) == t == Do(After(s, run[..n]), run[n])
  {
    t := Extended(s, run[..n], run[n]);
    assert run[..n] + [run[n]] == run[..n + 1];
  }
}
