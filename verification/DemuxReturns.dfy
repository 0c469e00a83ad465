// Which calls can still return with a result: after handleGetPubKey interfered,
// and after the connection ended.
module DemuxReturns {
  import opened Tables
  import opened Demux
  import opened DemuxRouting
  import opened DemuxRuns
  import opened DemuxInterference

  // The call of c that is under way returns the result of its last reply.
  predicate Finishes(s: State, run: seq<Action>, c: Command)
    requires CanRun(s, run)
    decreases |run|
  {
    run != [] &&
    if run[0] == Leave(c) then s.calls[c].phase.outcome.Finished? else Finishes(Do(s, run[0]), run[1..], c)
  }

  ghost predicate MayFinish(s: State, c: Command) {
    exists run :: CanRun(s, run) && Finishes(s, run, c)
  }

  // The last steps of a call, as runs

  lemma FinishLater(s: State, a: Action, c: Command)
    requires Can(s, a) && a != Leave(c) && MayFinish(Do(s, a), c)
    ensures MayFinish(s, c)
  {
    var rest :| CanRun(Do(s, a), rest) && Finishes(Do(s, a), rest, c);
    var run := [a] + rest;
    assert run[0] == a && run[1..] == rest;
    assert CanRun(s, run) && Finishes(s, run, c);
  }

  lemma FinishNow(s: State, c: Command)
    requires Can(s, Leave(c)) && s.calls[c].phase.outcome.Finished?
    ensures MayFinish(s, c)
  {
    var run := [Leave(c)];
    assert CanRun(Do(s, run[0]), run[1..]);
    assert CanRun(s, run) && Finishes(s, run, c);
  }

  lemma FinishDeleting(s: State, c: Command)
    requires Can(s, DeleteEntry(c)) && s.calls[c].phase.outcome.Finished?
    ensures MayFinish(s, c)
  {
    FinishNow(Do(s, DeleteEntry(c)), c);
    FinishLater(s, DeleteEntry(c), c);
  }

  // Returning without a result

  lemma {:induction false} ReturningStays(s: State, run: seq<Action>, c: Command)
    requires c in s.calls && s.calls[c].phase.Returning? && !s.calls[c].phase.outcome.Finished? && CanRun(s, run)
    ensures !Finishes(s, run, c)
    decreases |run|
  {
    hide Can;
    hide Do;
    if run != [] && run[0] != Leave(c) {
      OnlyLeaves(s, run[0], c);
      CallUntouched(s, run[0], c);
      ReturningStays(Do(s, run[0]), run[1..], c);
    }
  }

  lemma OnlyLeaves(s: State, a: Action, c: Command)
    requires Can(s, a) && c in s.calls && s.calls[c].phase.Returning?
    ensures CallStep(a) && a.c == c ==> a == Leave(c)
  {
  }

  lemma NeverAfter(s: State, c: Command)
    requires c in s.calls && s.calls[c].phase.Returning? && !s.calls[c].phase.outcome.Finished?
    ensures !MayFinish(s, c)
  {
    forall run | CanRun(s, run) ensures !Finishes(s, run, c) {
      ReturningStays(s, run, c);
    }
  }

  // A request can be written exactly when writing it can fail; then the server
  // owes nothing for it, nothing is read, and the call returns no result.
  lemma FailedWriteEnds(s: State, c: Command)
    ensures Can(s, FailWrite(c)) <==> Can(s, WriteOne(c))
    ensures Can(s, FailWrite(c)) ==>
      var t := Do(s, FailWrite(c));
      && c in t.calls && t.calls[c] == s.calls[c].(phase := Returning(WriteError))
      && t.owed == s.owed && t.channels == s.channels && t.chanMap == s.chanMap
      && !MayFinish(t, c)
  {
    hide MayFinish;
    if Can(s, FailWrite(c)) {
      NeverAfter(Do(s, FailWrite(c)), c);
    }
  }

  // A first reply without a key ends RPUB, and only that: the second reply is
  // not read any more.
  lemma KeylessReplyEnds(s: State)
    requires ReadyToReceive(s, RequestPubKey) && s.handler != Crashed && s.calls[RequestPubKey].phase.left > 1
    ensures var t := Do(s, Receive(RequestPubKey, false));
      RequestPubKey in t.calls && t.calls[RequestPubKey].phase == Returning(NoPemBlock) && !MayFinish(t, RequestPubKey)
    ensures var t := Do(s, Receive(RequestPubKey, true));
      RequestPubKey in t.calls && t.calls[RequestPubKey].phase == Reading(s.calls[RequestPubKey].phase.left - 1)
  {
    hide MayFinish;
    NeverAfter(Do(s, Receive(RequestPubKey, false)), RequestPubKey);
  }

  // After interference

  // The call that is cut off has its result, or waits on its own channel for a
  // last reply that is there.
  predicate HasResult(s: State, k: Call) {
    match k.phase
    case Deleting(_) => true
    case Returning(outcome) => outcome.Finished?
    case Receiving(left, from) => left == 1 && from == Some(k.ch) && k.ch < |s.channels| && s.channels[k.ch].queue != []
    case _ => false
  }

  lemma CutOffCannotGain(s: State, a: Action)
    requires CutOff(s) && !HasResult(s, s.calls[GetAddCode]) && Can(s, a) && a != Leave(GetAddCode)
    ensures CutOff(Do(s, a)) && !HasResult(Do(s, a), Do(s, a).calls[GetAddCode])
  {
    if OwnStep(a) {
      OwnStepKeepsCut(s, a);
      OwnStepGainsNothing(s, a);
    } else {
      OtherStepKeepsCut(s, a);
      OtherStepElsewhere(s, a);
      hide Inv;
      hide LookedUpSince;
    }
  }

  lemma OwnStepGainsNothing(s: State, a: Action)
    requires CutOff(s) && !HasResult(s, s.calls[GetAddCode]) && Can(s, a) && OwnStep(a) && a != Leave(GetAddCode)
    ensures GetAddCode in Do(s, a).calls && !HasResult(Do(s, a), Do(s, a).calls[GetAddCode])
  {
    hide Inv;
    hide LookedUpSince;
    hide SetOwed;
    hide Owes;
    if a.Receive? {
      OwnReceiveFrom(s);
    }
  }

  lemma {:induction false} CutOffNeverFinishes(s: State, run: seq<Action>)
    requires CutOff(s) && !HasResult(s, s.calls[GetAddCode]) && CanRun(s, run)
    ensures !Finishes(s, run, GetAddCode)
    decreases |run|
  {
    if run != [] {
      if run[0] == Leave(GetAddCode) {
        hide CutOff;
      } else {
        CutOffCannotGain(s, run[0]);
        hide CutOff;
        hide Do;
        hide Can;
        hide HasResult;
        CutOffNeverFinishes(Do(s, run[0]), run[1..]);
      }
    }
  }

  lemma CutOffFinishes(s: State)
    requires CutOff(s) && HasResult(s, s.calls[GetAddCode]) && s.handler != Crashed
    ensures MayFinish(s, GetAddCode)
  {
    hide Inv;
    hide LookedUpSince;
    hide MayFinish;
    match s.calls[GetAddCode].phase
    case Returning(_) => FinishNow(s, GetAddCode);
    case Deleting(_) => FinishDeleting(s, GetAddCode);
    case Receiving(_, _) =>
      FinishDeleting(Do(s, Receive(GetAddCode, true)), GetAddCode);
      FinishLater(s, Receive(GetAddCode, true), GetAddCode);
  }

  lemma CutOffFinishesExactly(s: State)
    requires CutOff(s) && s.handler != Crashed
    ensures MayFinish(s, GetAddCode) <==> HasResult(s, s.calls[GetAddCode])
  {
    if HasResult(s, s.calls[GetAddCode]) {
      CutOffFinishes(s);
    } else if MayFinish(s, GetAddCode) {
      hide CutOff;
      var run :| CanRun(s, run) && Finishes(s, run, GetAddCode);
      CutOffNeverFinishes(s, run);
    }
  }

  // In any run, interference under a registered call, whether it was cut off
  // before or not: some continuation lets the call return
  // its result if and only if the call has read its last reply, or is already
  // waiting for it with the reply in its channel. In every other phase it can
  // return at most a write error.
  lemma ClobberedFinishesExactly(run: seq<Action>, a: Action)
    requires CanRun(Start, run) && Can(After(Start, run), a) && Clobbers(After(Start, run), a)
    ensures var s := After(Start, run);
      var k := s.calls[GetAddCode];
      MayFinish(Do(s, a), GetAddCode) <==>
      k.phase.Deleting? ||
      (k.phase.Receiving? && k.phase.left == 1 && k.phase.from == Some(k.ch)
       && k.ch < |s.channels| && s.channels[k.ch].queue != [])
  {
    hide Inv;
    hide CutOff;
    hide MayFinish;
    hide Do;
    hide Can;
    SoundStart();
    RunKeepsSound(Start, run);
    var s := After(Start, run);
    var t, k := Do(s, a), s.calls[GetAddCode];
    SoundCall(s, GetAddCode);
    ClobberEffect(s, a);
    if Inv(s) {
      ClobberCutsOff(s, a);
    } else {
      OtherStepKeepsCut(s, a);
    }
    NotCrashed(s, a);
    assert t.channels[k.ch] == s.channels[k.ch];
    CutOffFinishesExactly(t);
  }

  lemma NotCrashed(s: State, a: Action)
    requires Can(s, a) && (a == RegisterOwn || a == DeleteOwn)
    ensures Do(s, a).handler != Crashed
  {
  }

  // After the connection ended

  // The replies a call still reads
  function StillReads(c: Command, p: Phase): nat {
    match p
    case Writing(_) => Replies(c)
    case Reading(left) => left
    case Receiving(left, _) => left
    case _ => 0
  }

  // Its channel holds all of them.
  predicate HasReplies(s: State, c: Command) {
    c in s.calls &&
    var k := s.calls[c];
    && (k.phase.Returning? ==> k.phase.outcome.Finished?)
    && k.ch < |s.channels| && StillReads(c, k.phase) <= |s.channels[k.ch].queue|
  }

  // The handler has stopped, and the call is not one that is cut off.
  ghost predicate Ended(s: State, c: Command) {
    s.handler == Stopped && c in s.calls && (Inv(s) || (CutOff(s) && c != GetAddCode))
  }

  lemma EndedCall(s: State, c: Command)
    requires Ended(s, c)
    ensures CallInv(s, c, s.calls[c])
    ensures s.calls[c].ch < |s.channels| && s.channels[s.calls[c].ch].owner == c
  {
    if Inv(s) {
      CallOf(s, c);
    } else {
      CallOf(Without(s), c);
      SameCall(s, c, s.calls[c]);
    }
    ChannelExists(s, c, s.calls[c]);
  }

  lemma StaysEnded(s: State, a: Action, c: Command)
    requires Ended(s, c) && Can(s, a) && a != Leave(c)
    ensures Ended(Do(s, a), c)
  {
    hide Inv;
    hide CutOff;
    hide Do;
    hide Can;
    StaysUnderWay(s, a, c);
    if Inv(s) {
      NoInterference(s, a);
      StepKeeps(s, a);
    } else if a == Leave(GetAddCode) {
      LeaveIs(s, GetAddCode);
      LeaveRestores(s);
    } else if OwnStep(a) {
      OwnStepKeepsCut(s, a);
    } else {
      OtherStepKeepsCut(s, a);
    }
  }

  lemma LeaveIs(s: State, c: Command)
    requires Can(s, Leave(c))
    ensures c in s.calls && s.calls[c].phase.Returning?
    ensures Do(s, Leave(c)) == DoLeave(s, c)
  {
  }

  lemma NoInterference(s: State, a: Action)
    requires s.handler == Stopped && Can(s, a)
    ensures !Clobbers(s, a)
  {
  }

  lemma StaysUnderWay(s: State, a: Action, c: Command)
    requires s.handler == Stopped && c in s.calls && Can(s, a) && a != Leave(c)
    ensures Do(s, a).handler == Stopped && c in Do(s, a).calls
  {
    hide SetOwed;
    hide Owes;
    hide CommandOf;
  }

  // A call of another command waits on another channel.
  lemma OthersReceive(s: State, d: Command, c: Command)
    requires Ended(s, c) && ReadyToReceive(s, d) && d != c
    ensures s.calls[d].phase.from.value != s.calls[c].ch
  {
    EndedCall(s, c);
    if Inv(s) || d != GetAddCode {
      EndedCall(s, d);
      FromOwnChannel(s, d);
    } else {
      OwnReceiveFrom(s);
      hide Inv;
    }
  }

  // After the end nothing enters the channel of a call.
  lemma OthersElsewhere(s: State, a: Action, c: Command)
    requires Ended(s, c) && Can(s, a) && (CallStep(a) ==> a.c != c)
    ensures c in Do(s, a).calls && Do(s, a).calls[c] == s.calls[c]
    ensures s.calls[c].ch < |Do(s, a).channels| && s.calls[c].ch < |s.channels|
    ensures Do(s, a).channels[s.calls[c].ch] == s.channels[s.calls[c].ch]
  {
    hide Inv;
    hide CutOff;
    hide CallInv;
    hide Do;
    EndedCall(s, c);
    NotDelivering(s, a);
    hide Can;
    CallUntouched(s, a, c);
    if a.Receive? {
      ReceiveIs(s, a.c, a.pem);
      OthersReceive(s, a.c, c);
    }
    ChannelStays(s, a, s.calls[c].ch);
  }

  lemma NotDelivering(s: State, a: Action)
    requires s.handler == Stopped && Can(s, a)
    ensures a != Deliver
  {
  }

  lemma ReceiveIs(s: State, c: Command, pem: bool)
    requires Can(s, Receive(c, pem))
    ensures ReadyToReceive(s, c) && Do(s, Receive(c, pem)) == DoReceive(s, c, pem)
  {
  }

  lemma ChannelStays(s: State, a: Action, ch: nat)
    requires Can(s, a) && ch < |s.channels| && a != Deliver
    requires a.Receive? ==> s.calls[a.c].phase.from.value != ch
    ensures ch < |Do(s, a).channels| && Do(s, a).channels[ch] == s.channels[ch]
  {
    hide SetOwed;
    hide Owes;
    hide CommandOf;
  }

  predicate WellShaped(s: State, c: Command) {
    c in s.calls &&
    var k := s.calls[c];
    && k.ch < |s.channels|
    && (k.phase.Writing? || k.phase.Reading? || k.phase.Receiving? ==> k.phase.left > 0)
    && (k.phase.Receiving? ==> k.phase.from == Some(k.ch))
    && (k.phase.Deleting? ==> k.phase.outcome.Finished?)
  }

  lemma EndedShape(s: State, c: Command)
    requires Ended(s, c)
    ensures WellShaped(s, c)
  {
    EndedCall(s, c);
    hide Ended;
    hide InFlight;
    hide LookedUpSince;
  }

  // Its own steps leave what it still reads and what its channel holds in step.

  lemma OwnReceiveKeepsNeed(s: State, c: Command, pem: bool)
    requires WellShaped(s, c) && ReadyToReceive(s, c)
    ensures var t := DoReceive(s, c, pem);
      && (HasReplies(t, c) ==> HasReplies(s, c)) && (HasReplies(s, c) && pem ==> HasReplies(t, c))
  {
  }

  lemma WriteEffect(s: State, c: Command)
    requires c in s.calls && s.calls[c].phase.Writing?
    ensures var t := DoWrite(s, c);
      && t.channels == s.channels && c in t.calls && t.calls[c] == s.calls[c].(phase := t.calls[c].phase)
      && (t.calls[c].phase.Writing? || t.calls[c].phase == Reading(Replies(c)))
  {
    hide SetOwed;
    hide Owes;
    hide Replies;
  }

  lemma OwnWriteKeepsNeed(s: State, c: Command)
    requires WellShaped(s, c) && s.calls[c].phase.Writing?
    ensures HasReplies(DoWrite(s, c), c) <==> HasReplies(s, c)
  {
    hide DoWrite;
    hide Replies;
    WriteEffect(s, c);
  }

  lemma OwnStepKeepsNeed(s: State, a: Action, c: Command)
    requires WellShaped(s, c) && Can(s, a) && CallStep(a) && a.c == c && a != Leave(c)
    ensures HasReplies(Do(s, a), c) ==> HasReplies(s, c)
    ensures HasReplies(s, c) && !a.FailWrite? && (a.Receive? ==> a.pem) ==> HasReplies(Do(s, a), c)
  {
    match a {
      case WriteOne(_) => OwnWriteKeepsNeed(s, c);
      case Receive(_, pem) => OwnReceiveKeepsNeed(s, c, pem);
      case FailWrite(_) =>
      case Lookup(_) =>
      case DeleteEntry(_) =>
    }
    hide DoWrite;
    hide DoReceive;
  }

  lemma StaysNeedy(s: State, a: Action, c: Command)
    requires Ended(s, c) && !HasReplies(s, c) && Can(s, a) && a != Leave(c)
    ensures !HasReplies(Do(s, a), c)
  {
    hide Ended;
    hide Do;
    hide Can;
    EndedShape(s, c);
    if CallStep(a) && a.c == c {
      OwnStepKeepsNeed(s, a, c);
    } else {
      OthersElsewhere(s, a, c);
    }
  }

  lemma NotFinished(s: State, c: Command)
    requires c in s.calls && s.calls[c].phase.Returning? && !HasReplies(s, c) && Ended(s, c)
    ensures !s.calls[c].phase.outcome.Finished?
  {
    hide Ended;
    EndedShape(s, c);
  }

  lemma {:induction false} EndedNeverFinishes(s: State, run: seq<Action>, c: Command)
    requires Ended(s, c) && !HasReplies(s, c) && CanRun(s, run)
    ensures !Finishes(s, run, c)
    decreases |run|
  {
    hide Ended;
    hide Do;
    hide Can;
    hide HasReplies;
    if run != [] {
      var a := run[0];
      if a == Leave(c) {
        LeaveIs(s, c);
        NotFinished(s, c);
      } else {
        StaysEnded(s, a, c);
        StaysNeedy(s, a, c);
        EndedNeverFinishes(Do(s, a), run[1..], c);
      }
    }
  }

  // The steps of a call up to its return
  function Path(c: Command, p: Phase): nat {
    match p
    case Writing(left) => left + 2 * Replies(c) + 2
    case Reading(left) => 2 * left + 2
    case Receiving(left, _) => 2 * left + 1
    case Deleting(_) => 1
    case Returning(_) => 0
  }

  function NextOf(s: State, c: Command): Action
    requires c in s.calls
  {
    match s.calls[c].phase
    case Writing(_) => WriteOne(c)
    case Reading(_) => Lookup(c)
    case Receiving(_, _) => Receive(c, true)
    case Deleting(_) => DeleteEntry(c)
    case Returning(_) => Leave(c)
  }

  lemma NextPossible(s: State, c: Command)
    requires WellShaped(s, c) && HasReplies(s, c) && s.handler != Crashed
    ensures Can(s, NextOf(s, c))
  {
    hide Replies;
  }

  lemma ReceiveCloser(s: State, c: Command)
    requires ReadyToReceive(s, c)
    ensures c in DoReceive(s, c, true).calls
      && Path(c, DoReceive(s, c, true).calls[c].phase) < Path(c, s.calls[c].phase)
  {
    hide Replies;
  }

  lemma WriteCloser(s: State, c: Command)
    requires c in s.calls && s.calls[c].phase.Writing? && s.calls[c].phase.left > 0
    ensures c in DoWrite(s, c).calls && Path(c, DoWrite(s, c).calls[c].phase) < Path(c, s.calls[c].phase)
  {
    hide SetOwed;
    hide Owes;
    hide Replies;
  }

  lemma LookupCloser(s: State, c: Command)
    requires Can(s, Lookup(c))
    ensures c in Do(s, Lookup(c)).calls && Path(c, Do(s, Lookup(c)).calls[c].phase) < Path(c, s.calls[c].phase)
  {
  }

  lemma DeleteCloser(s: State, c: Command)
    requires Can(s, DeleteEntry(c))
    ensures c in Do(s, DeleteEntry(c)).calls
      && Path(c, Do(s, DeleteEntry(c)).calls[c].phase) < Path(c, s.calls[c].phase)
  {
  }

  lemma CallerCloser(s: State, c: Command)
    ensures Can(s, WriteOne(c)) ==>
      c in Do(s, WriteOne(c)).calls && Path(c, Do(s, WriteOne(c)).calls[c].phase) < Path(c, s.calls[c].phase)
    ensures Can(s, Receive(c, true)) ==>
      c in Do(s, Receive(c, true)).calls && Path(c, Do(s, Receive(c, true)).calls[c].phase) < Path(c, s.calls[c].phase)
  {
    if Can(s, WriteOne(c)) {
      WriteCloser(s, c);
    }
    if Can(s, Receive(c, true)) {
      ReceiveCloser(s, c);
    }
    hide DoWrite;
    hide DoReceive;
    hide Path;
  }

  lemma NextCloser(s: State, c: Command)
    requires WellShaped(s, c) && Can(s, NextOf(s, c)) && NextOf(s, c) != Leave(c)
    ensures c in Do(s, NextOf(s, c)).calls
    ensures Path(c, Do(s, NextOf(s, c)).calls[c].phase) < Path(c, s.calls[c].phase)
  {
    hide Do;
    hide Can;
    hide Path;
    match NextOf(s, c)
    case WriteOne(_) => CallerCloser(s, c);
    case Receive(_, _) => CallerCloser(s, c);
    case Lookup(_) => LookupCloser(s, c);
    case DeleteEntry(_) => DeleteCloser(s, c);
  }

  lemma {:induction false} EndedFinishes(s: State, c: Command)
    requires Ended(s, c) && HasReplies(s, c)
    ensures MayFinish(s, c)
    decreases Path(c, s.calls[c].phase)
  {
    hide MayFinish;
    EndedShape(s, c);
    NextPossible(s, c);
    var a := NextOf(s, c);
    if a == Leave(c) {
      FinishNow(s, c);
    } else {
      NextCloser(s, c);
      StaysEnded(s, a, c);
      OwnStepKeepsNeed(s, a, c);
      hide Ended;
      hide Do;
      hide Can;
      EndedFinishes(Do(s, a), c);
      FinishLater(s, a, c);
    }
  }

  // Once the handler stopped reading, a call that is not cut off can return its
  // result if and only if its channel already holds all the replies it still
  // reads; any other call waits for ever, unless a write or its key file fails.
  lemma EndedFinishesExactly(s: State, c: Command)
    requires Ended(s, c)
    ensures MayFinish(s, c) <==> HasReplies(s, c)
  {
    hide Ended;
    if HasReplies(s, c) {
      EndedFinishes(s, c);
    } else if MayFinish(s, c) {
      var run :| CanRun(s, run) && Finishes(s, run, c);
      EndedNeverFinishes(s, run, c);
    }
  }

  // For a registered GADC call, being cut off is the same as having no entry.
  lemma StoppedEntry(s: State)
    requires Sound(s) && s.handler == Stopped && GetAddCode in s.calls && Registered(s.calls[GetAddCode].phase)
    ensures Inv(s) ==> GetAddCode in s.chanMap
    ensures CutOff(s) ==> GetAddCode !in s.chanMap
  {
    hide LookedUpSince;
    hide InFlight;
    if Inv(s) {
      CallOf(s, GetAddCode);
    }
    if CutOff(s) {
      NoEntryWithoutCall(s);
    }
    hide Inv;
    hide CutOff;
  }

  lemma NoEntryWithoutCall(s: State)
    requires Inv(Without(s)) && s.handler == Stopped
    ensures GetAddCode !in s.chanMap
  {
    hide CallsInv;
    hide QueuesInv;
    hide ReturnedInv;
  }

  // A call that has read everything can return its result, cut off or not.
  lemma UnregisteredHasBoth(s: State, c: Command)
    requires c in s.calls && !Registered(s.calls[c].phase) && s.calls[c].ch < |s.channels|
    ensures HasReplies(s, c) && HasResult(s, s.calls[c])
  {
  }

  // In any run up to the end of the connection: a call that has its entry, or
  // has already deleted it, can return its result if and only if its channel
  // holds all the replies it still reads. One whose entry is missing was cut
  // off; it can if and only if the channel it waits on holds the last reply.
  lemma StoppedRuns(run: seq<Action>, c: Command)
    requires CanRun(Start, run) && After(Start, run).handler == Stopped && c in After(Start, run).calls
    ensures var s := After(Start, run);
      MayFinish(s, c) <==>
      if c in s.chanMap || !Registered(s.calls[c].phase) then HasReplies(s, c) else HasResult(s, s.calls[c])
  {
    hide Inv;
    hide CutOff;
    hide MayFinish;
    hide HasReplies;
    hide HasResult;
    SoundStart();
    RunKeepsSound(Start, run);
    var s := After(Start, run);
    SoundCall(s, c);
    if !Registered(s.calls[c].phase) {
      UnregisteredHasBoth(s, c);
    } else if c == GetAddCode {
      StoppedEntry(s);
    } else {
      EndedEntry(s, c);
    }
    if Inv(s) || c != GetAddCode {
      EndedFinishesExactly(s, c);
    } else {
      CutOffFinishesExactly(s);
    }
  }

  lemma EndedEntry(s: State, c: Command)
    requires Ended(s, c) && Registered(s.calls[c].phase)
    ensures c in s.chanMap
  {
    EndedCall(s, c);
    hide Ended;
    hide LookedUpSince;
    hide InFlight;
  }

  // A run that ends before the reply: the call never returns its result.
  const LostReply: seq<Action> := [Begin(Quit), WriteOne(Quit), StopReading]

  const Unanswered: State := Start.(
    handler := Stopped, chanMap := map[Quit := 0], channels := [Channel(Quit, [])],
    calls := map[Quit := Call(0, 0, [], Reading(1))], owed := map[Quit := 1])

  lemma LostReplyRuns()
    ensures CanRun(Start, LostReply) && After(Start, LostReply) == Unanswered
  {
    assert LostReply[..0] == [] && LostReply[..3] == LostReply;
    assert CanRun(Start, LostReply[..0]) && After(Start, LostReply[..0]) == Start;
    hide CanRun;
    hide After;
    var s1 := OneFurther(Start, LostReply, 0);
    var s2 := OneFurther(Start, LostReply, 1);
    var s3 := OneFurther(Start, LostReply, 2);
  }

  lemma ReplyLost()
    ensures CanRun(Start, LostReply) && Quit in After(Start, LostReply).calls
    ensures !MayFinish(After(Start, LostReply), Quit)
  {
    hide CanRun;
    hide After;
    hide MayFinish;
    LostReplyRuns();
    StoppedRuns(LostReply, Quit);
  }
}
