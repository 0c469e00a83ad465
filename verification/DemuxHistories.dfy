// What calls do over a run, told by their steps: how many requests they write
// and replies they read, and which steps make them return which outcome.
module DemuxHistories {
  import opened Tables
  import opened Framing
  import opened Demux
  import opened DemuxRuns
  import opened DemuxInterference
  import opened DemuxReturns
  import opened DemuxProgress

  // The steps of the call of c that began last
  function History(run: seq<Action>, c: Command): seq<Action>
    decreases |run|
  {
    if run == [] then [] else
    var before, last := run[..|run| - 1], run[|run| - 1];
    if last == Begin(c) then []
    else if CallStep(last) && last.c == c then History(before, c) + [last]
    else History(before, c)
  }

  function Writings(h: seq<Action>): nat {
    if h == [] then 0 else Writings(h[..|h| - 1]) + (if h[|h| - 1].WriteOne? then 1 else 0)
  }

  function Receipts(h: seq<Action>): nat {
    if h == [] then 0 else Receipts(h[..|h| - 1]) + (if h[|h| - 1].Receive? then 1 else 0)
  }

  lemma OneMore(h: seq<Action>, a: Action)
    ensures Writings(h + [a]) == Writings(h) + (if a.WriteOne? then 1 else 0)
    ensures Receipts(h + [a]) == Receipts(h) + (if a.Receive? then 1 else 0)
  {
    assert (h + [a])[..|h|] == h;
  }

  // QUIT and GADC are one message, the other calls write a second one.
  function Requests(c: Command): nat {
    match c
    case Quit => 1
    case GetAddCode => 1
    case _ => 2
  }

  // GADC and RPUB read data before the result.
  function Answers(c: Command): nat {
    match c
    case GetAddCode => 2
    case RequestPubKey => 2
    case _ => 1
  }

  // The steps of a call so far, and its phase
  ghost predicate Fits(c: Command, k: Call, h: seq<Action>) {
    && Callable(c) && Receipts(h) == |k.consumed|
    && (FailWrite(c) in h <==> k.phase == Returning(WriteError))
    && match k.phase
       case Writing(left) => 0 < left && Writings(h) + left == Requests(c) && k.consumed == []
       case Reading(left) => Answering(c, k, h, left)
       case Receiving(left, _) => Answering(c, k, h, left)
       case Deleting(outcome) => Answered(c, k, h, outcome)
       case Returning(WriteError) => Writings(h) < Requests(c) && k.consumed == []
       case Returning(NoPemBlock) =>
         c == RequestPubKey && Writings(h) == Requests(c) && |k.consumed| == 1 && Receive(c, false) in h
       case Returning(outcome) => Answered(c, k, h, outcome)
  }

  ghost predicate Answering(c: Command, k: Call, h: seq<Action>, left: nat) {
    && 0 < left && Writings(h) == Requests(c) && |k.consumed| + left == Answers(c)
    && (c == RequestPubKey ==> Receive(c, false) !in h)
  }

  ghost predicate Answered(c: Command, k: Call, h: seq<Action>, outcome: Outcome) {
    && Writings(h) == Requests(c) && |k.consumed| == Answers(c)
    && outcome == Finished(ErrorCodes(k.consumed[Answers(c) - 1].errorCode))
  }

  lemma CountsAgree(c: Command)
    requires Callable(c)
    ensures Requests(c) == Writes(c) && Answers(c) == Replies(c)
  {
  }

  // The last step of a run
  lemma {:induction false} LastStep(s: State, run: seq<Action>)
    requires CanRun(s, run) && run != []
    ensures var before, last := run[..|run| - 1], run[|run| - 1];
      CanRun(s, before) && Can(After(s, before), last) && After(s, run) == Do(After(s, before), last)
    decreases |run|
  {
    hide Can;
    hide Do;
    var before, last := run[..|run| - 1], run[|run| - 1];
    if |run| == 1 {
      assert run[1..] == [] && before == [];
    } else {
      LastStep(Do(s, run[0]), run[1..]);
      assert run[1..][..|run| - 2] == before[1..];
    }
  }

  lemma FitsBegun(s: State, c: Command)
    requires Callable(c) && c !in s.calls
    ensures c in DoBegin(s, c).calls && Fits(c, DoBegin(s, c).calls[c], [])
  {
    CountsAgree(c);
  }

  lemma FitsWritten(s: State, c: Command, h: seq<Action>)
    requires c in s.calls && s.calls[c].phase.Writing? && Fits(c, s.calls[c], h)
    ensures c in DoWrite(s, c).calls && Fits(c, DoWrite(s, c).calls[c], h + [WriteOne(c)])
  {
    CountsAgree(c);
    OneMore(h, WriteOne(c));
    hide SetOwed;
    hide Owes;
    hide Writes;
    hide Replies;
    NoReceipt(h, c);
  }

  // Nothing read yet, nothing refused yet
  lemma {:induction false} NoReceipt(h: seq<Action>, c: Command)
    requires Receipts(h) == 0
    ensures Receive(c, false) !in h && Receive(c, true) !in h
    decreases |h|
  {
    if h != [] {
      NoReceipt(h[..|h| - 1], c);
      assert h == h[..|h| - 1] + [h[|h| - 1]];
    }
  }

  lemma FitsFailed(s: State, c: Command, h: seq<Action>)
    requires c in s.calls && s.calls[c].phase.Writing? && Fits(c, s.calls[c], h)
    ensures var t := SetPhase(s, c, Returning(WriteError)); c in t.calls && Fits(c, t.calls[c], h + [FailWrite(c)])
  {
    OneMore(h, FailWrite(c));
  }

  lemma FitsLookedUp(s: State, c: Command, h: seq<Action>)
    requires c in s.calls && s.calls[c].phase.Reading? && Fits(c, s.calls[c], h)
    ensures c in DoLookup(s, c).calls && Fits(c, DoLookup(s, c).calls[c], h + [Lookup(c)])
  {
    OneMore(h, Lookup(c));
  }

  lemma FitsReceived(s: State, c: Command, pem: bool, h: seq<Action>)
    requires ReadyToReceive(s, c) && Fits(c, s.calls[c], h)
    ensures var t := DoReceive(s, c, pem); c in t.calls && Fits(c, t.calls[c], h + [Receive(c, pem)])
  {
    CountsAgree(c);
    OneMore(h, Receive(c, pem));
    hide Receipts;
    hide Writings;
  }

  lemma FitsDeleted(s: State, c: Command, h: seq<Action>)
    requires c in s.calls && s.calls[c].phase.Deleting? && Fits(c, s.calls[c], h)
    ensures c in DoDeleteEntry(s, c).calls && Fits(c, DoDeleteEntry(s, c).calls[c], h + [DeleteEntry(c)])
  {
    OneMore(h, DeleteEntry(c));
  }

  // A step of the call itself
  lemma FitsNext(s: State, a: Action, c: Command, h: seq<Action>)
    requires Can(s, a) && c in s.calls && Fits(c, s.calls[c], h) && CallStep(a) && a.c == c && !a.Leave?
    ensures c in Do(s, a).calls && Fits(c, Do(s, a).calls[c], h + [a])
  {
    hide Fits;
    match a {
      case WriteOne(_) => FitsWritten(s, c, h);
      case FailWrite(_) => FitsFailed(s, c, h);
      case Lookup(_) => FitsLookedUp(s, c, h);
      case Receive(_, pem) => FitsReceived(s, c, pem, h);
      case DeleteEntry(_) => FitsDeleted(s, c, h);
    }
    hide DoWrite;
    hide DoReceive;
    hide DoDeleteEntry;
    hide DoLookup;
    hide SetPhase;
  }

  lemma WhichCall(s: State, a: Action, c: Command)
    requires Can(s, a) && c in Do(s, a).calls
    ensures a == Begin(c) ==> Callable(c) && c !in s.calls && Do(s, a) == DoBegin(s, c)
    ensures a != Begin(c) ==> c in s.calls && a != Leave(c)
  {
    if a == Begin(c) {
      return;
    }
    CallsUnderWay(s, a, c);
    hide Do;
    hide Can;
  }

  // Calls come by beginning and go by leaving.
  lemma CallsUnderWay(s: State, a: Action, c: Command)
    requires Can(s, a) && a != Begin(c)
    ensures c in Do(s, a).calls <==> c in s.calls && a != Leave(c)
  {
    if CallStep(a) && a.c == c {
      OwnCallUnderWay(s, a);
    } else {
      OtherCallUnderWay(s, a, c);
    }
  }

  lemma OwnCallUnderWay(s: State, a: Action)
    requires Can(s, a) && CallStep(a) && !a.Begin?
    ensures a.c in s.calls && (a.c in Do(s, a).calls <==> !a.Leave?)
  {
    hide SetOwed;
    hide Owes;
  }

  lemma OtherCallUnderWay(s: State, a: Action, c: Command)
    requires Can(s, a) && (CallStep(a) ==> a.c != c)
    ensures c in Do(s, a).calls <==> c in s.calls
  {
    hide SetOwed;
    hide Owes;
    hide Routed;
    hide CommandOf;
  }

  lemma NoCallAtStart(c: Command)
    ensures CanRun(Start, []) && c !in After(Start, []).calls
  {
  }

  // In any run, at any point of any call, its steps fit its phase.
  lemma {:induction false} HistoryFits(run: seq<Action>, c: Command)
    requires CanRun(Start, run) && c in After(Start, run).calls
    ensures Fits(c, After(Start, run).calls[c], History(run, c))
    decreases |run|
  {
    hide CanRun;
    hide Can;
    hide Do;
    hide Fits;
    if run == [] {
      NoCallAtStart(c);
    } else {
      hide After;
      LastStep(Start, run);
      var before, a := run[..|run| - 1], run[|run| - 1];
      var s := After(Start, before);
      WhichCall(s, a, c);
      if a == Begin(c) {
        FitsBegun(s, c);
      } else {
        HistoryFits(before, c);
        if CallStep(a) && a.c == c {
          FitsNext(s, a, c, History(before, c));
        } else {
          CallUntouched(s, a, c);
        }
      }
    }
  }

  // How a call returns: with a write error exactly if one of its writes failed;
  // for want of a key exactly if it is RPUB and its first reply held none; and
  // otherwise after writing and reading all its messages, with the table entry
  // of the last.
  lemma ReturnsExactly(run: seq<Action>, c: Command)
    requires CanRun(Start, run) && Can(After(Start, run), Leave(c))
    ensures var s := After(Start, run);
      var h := History(run, c);
      var k := s.calls[c];
      && c in s.calls && Do(s, Leave(c)).returned == s.returned + [Return(c, k.start, k.consumed, k.phase.outcome)]
      && (k.phase.outcome == WriteError <==> FailWrite(c) in h)
      && (k.phase.outcome == NoPemBlock <==> c == RequestPubKey && Receipts(h) == 1 && Receive(c, false) in h)
      && (k.phase.outcome.Finished? ==>
           && Writings(h) == (if c == Quit || c == GetAddCode then 1 else 2)
           && Receipts(h) == |k.consumed| == (if c == GetAddCode || c == RequestPubKey then 2 else 1)
           && k.phase.outcome == Finished(ErrorCodes(k.consumed[|k.consumed| - 1].errorCode)))
  {
    hide CanRun;
    hide After;
    var s := After(Start, run);
    LeaveIs(s, c);
    hide Can;
    hide Do;
    HistoryFits(run, c);
    hide History;
    if Receipts(History(run, c)) == 0 {
      NoReceipt(History(run, c), c);
    }
  }

  // Every call is one of these six.
  lemma SixCalls(run: seq<Action>, c: Command)
    requires CanRun(Start, run) && c in After(Start, run).calls
    ensures c in {Init, Quit, RequestPubKey, RemoveAddCode, GetAddCode, RequestRelay}
  {
    hide CanRun;
    hide After;
    hide History;
    HistoryFits(run, c);
  }

  lemma WorkLeft(s: State, c: Command)
    requires c in s.calls
    ensures Remaining(s) > 0
  {
    CommandTableInverse(c);
    if SumWork(s, AllCommands) == 0 {
      SumZero(s, AllCommands, c.Code());
    }
  }

  lemma FinishedOutcome(s: State, c: Command)
    requires Balanced(s, c) && c in s.calls && s.calls[c].phase.Returning?
    ensures s.calls[c].phase.outcome.Finished?
  {
    hide Underway;
  }

  lemma {:induction false} SettledFinishes(s: State, c: Command)
    requires Settled(s) && c in s.calls
    ensures MayFinish(s, c)
    decreases Remaining(s)
  {
    hide Settled;
    hide Remaining;
    hide MayFinish;
    hide Do;
    hide Can;
    WorkLeft(s, c);
    var a := NeverStuck(s);
    if a == Leave(c) {
      LeaveIs(s, c);
      SettledParts(s, c);
      hide Balanced;
      FinishedOutcome(s, c);
      FinishNow(s, c);
    } else {
      NotBegun(s, a, c);
      CallsUnderWay(s, a, c);
      StepDecreases(s, a);
      SettledFinishes(Do(s, a), c);
      FinishLater(s, a, c);
    }
  }

  lemma NotBegun(s: State, a: Action, c: Command)
    requires Can(s, a) && c in s.calls
    ensures a != Begin(c)
  {
  }

  // When the server answers every request, every call under way can still return
  // its result; in particular each of the six, from the start.
  lemma CallsCanFinish(run: seq<Action>, c: Command)
    requires PoliteRun(Start, run) && CanRun(Start, run) && c in After(Start, run).calls
    ensures MayFinish(After(Start, run), c)
  {
    hide Settled;
    hide MayFinish;
    hide PoliteRun;
    StartSettled();
    RunSettles(Start, run);
    SettledFinishes(After(Start, run), c);
  }

  lemma EachCallCanFinish(c: Command)
    requires c in {Init, Quit, RequestPubKey, RemoveAddCode, GetAddCode, RequestRelay}
    ensures Can(Start, Begin(c)) && c in Do(Start, Begin(c)).calls && MayFinish(Do(Start, Begin(c)), c)
  {
    hide Settled;
    hide MayFinish;
    StartSettled();
    assert Polite(Start, Begin(c));
    StepSettles(Start, Begin(c));
    SettledFinishes(Do(Start, Begin(c)), c);
  }
}
