/** What holds of every run of the session machine: turns, replays, and the account of all octets. */
module Runs {
  import opened Wire
  import opened Streams
  import opened Buffer
  import opened ErrorScan
  import opened Trace

  predicate SameTurn(t: seq<Event>, i: nat, j: nat)
    requires i <= j <= |t|
  {
    forall k | i <= k < j :: !t[k].act.Turn?
  }

  /** Within a turn the selected backend moves from the reader to the writer at most. */
  lemma {:induction false} BefdOnlyMovesToWriter(w: World, s0: State, t: seq<Event>, i: nat, j: nat)
    requires Obeys(w, s0, t) && i <= j <= |t| && SameTurn(t, i, j)
    ensures Obeys(w, s0, t[..i]) && Obeys(w, s0, t[..j])
    ensures At(w, s0, t[..i]).befd == Writer ==> At(w, s0, t[..j]).befd == Writer
    decreases j
  {
    hide Next, Possible;
    StepAt(w, s0, t, i);
    StepAt(w, s0, t, j);
    if i < j {
      BefdOnlyMovesToWriter(w, s0, t, i, j - 1);
      StepAt(w, s0, t, j - 1);
      RoutingStep(w, At(w, s0, t[..j - 1]), t[j - 1]);
    }
  }

  /** So a request is replayed at most once: between two failovers a new turn begins. */
  lemma OneFailoverPerTurn(w: World, s0: State, t: seq<Event>, i: nat, j: nat)
    requires Obeys(w, s0, t) && Starts(s0) && i < j < |t| && t[i].act.Failover? && t[j].act.Failover?
    ensures !SameTurn(t, i, j)
  {
    hide Next, Possible, SameTurn;
    StepAt(w, s0, t, i);
    StepAt(w, s0, t, j);
    RoutingStep(w, At(w, s0, t[..i]), t[i]);
    InTxnIffOpen(w, s0, t[..j]);
    DrainsReader(w, At(w, s0, t[..j]), t[j]);
    if SameTurn(t, i, j) {
      TurnGoesOn(t, i, j);
      BefdOnlyMovesToWriter(w, s0, t, i + 1, j);
    }
  }

  lemma TurnGoesOn(t: seq<Event>, i: nat, j: nat)
    requires i < j <= |t| && SameTurn(t, i, j)
    ensures SameTurn(t, i + 1, j)
  {
  }

  /** What makes the writer selected in a turn: a transaction was open at its start, one begins, or the reader
      refused. */
  predicate Selects(w: World, s0: State, t: seq<Event>, i: nat)
    requires Obeys(w, s0, t) && i < |t|
  {
    StepAt(w, s0, t, i);
    match t[i].act
    case Turn => At(w, s0, t[..i]).inTxn
    case Request(_, _, _, begins, _) => begins
    case Failover(_, _) => true
    case _ => false
  }

  /** The writer is selected exactly when one of those happened since the turn began at `k`; so every other request
      goes to the reader. */
  lemma {:induction false} WriterSelectedIff(w: World, s0: State, t: seq<Event>, k: nat, j: nat)
    requires Obeys(w, s0, t) && Starts(s0) && k < j <= |t| && t[k].act.Turn? && SameTurn(t, k + 1, j)
    ensures Obeys(w, s0, t[..j])
    ensures At(w, s0, t[..j]).befd == Writer <==> exists i | k <= i < j :: Selects(w, s0, t, i)
    decreases j
  {
    hide Next, Possible, Open;
    StepAt(w, s0, t, j);
    StepAt(w, s0, t, j - 1);
    RoutingStep(w, At(w, s0, t[..j - 1]), t[j - 1]);
    if j == k + 1 {
      InTxnIffOpen(w, s0, t[..k]);
      assert Selects(w, s0, t, k) <==> At(w, s0, t[..j]).befd == Writer;
    } else {
      WriterSelectedIff(w, s0, t, k, j - 1);
      assert At(w, s0, t[..j]).befd == Writer <==> At(w, s0, t[..j - 1]).befd == Writer || Selects(w, s0, t, j - 1);
    }
  }

  /** A BEGIN takes the client's messages away from the reader. */
  predicate Moves(w: World, s0: State, t: seq<Event>, i: nat)
    requires Obeys(w, s0, t) && i < |t|
  {
    StepAt(w, s0, t, i);
    t[i].act.Request? && t[i].act.begins && At(w, s0, t[..i]).befd == Reader
  }

  /** Replies are read from the backend the requests go to, except in exactly the turns in which a BEGIN moved the
      requests from the reader to the writer: the reply side is not moved with them. */
  lemma {:induction false} RepliesFollowRequestsIff(w: World, s0: State, t: seq<Event>, k: nat, j: nat)
    requires Obeys(w, s0, t) && Starts(s0) && k < j <= |t| && t[k].act.Turn? && SameTurn(t, k + 1, j)
    ensures Obeys(w, s0, t[..j])
    ensures At(w, s0, t[..j]).source == At(w, s0, t[..j]).befd <==> !exists i | k <= i < j :: Moves(w, s0, t, i)
    decreases j
  {
    hide Next, Possible, Open;
    StepAt(w, s0, t, j);
    StepAt(w, s0, t, j - 1);
    var s, s' := At(w, s0, t[..j - 1]), At(w, s0, t[..j]);
    RoutingStep(w, s, t[j - 1]);
    InTxnIffOpen(w, s0, t[..j - 1]);
    if j > k + 1 {
      RepliesFollowRequestsIff(w, s0, t, k, j - 1);
      DrainsReader(w, s, t[j - 1]);
      assert s'.source == s'.befd <==> s.source == s.befd && !Moves(w, s0, t, j - 1);
    } else {
      assert !Moves(w, s0, t, k);
    }
  }

  lemma GrowsStep(w: World, s: State, e: Event)
    requires Possible(w, s, e)
    ensures var s' := Next(w, s, e); s.toReader <= s'.toReader && s.toWriter <= s'.toWriter && s.toClient <= s'.toClient
  {
    hide QueryStarts, Refusal, Buffer.Send, Hear, Take, Buffer.Drain, EndsIn, Front, HasFrame, MsgType, Reaches;
  }

  /** What went out stays out. */
  lemma {:induction false} OutputsGrow(w: World, s0: State, t: seq<Event>, i: nat)
    requires Obeys(w, s0, t) && i <= |t|
    ensures Obeys(w, s0, t[..i])
    ensures var s, s' := At(w, s0, t[..i]), At(w, s0, t);
            s.toReader <= s'.toReader && s.toWriter <= s'.toWriter && s.toClient <= s'.toClient
    decreases |t|
  {
    hide Possible, Next;
    StepAt(w, s0, t, i);
    if i < |t| {
      var n := |t| - 1;
      StepAt(w, s0, t, n);
      assert t[..n + 1] == t && t[..n][..i] == t[..i];
      OutputsGrow(w, s0, t[..n], i);
      GrowsStep(w, At(w, s0, t[..n]), t[n]);
    } else {
      assert t[..i] == t;
    }
  }

  // What follows holds of the runs in which nothing fails; what the backends get, when no `writen` call is short.

  /** The requests since the last failover, one after the other. */
  function Logged(t: seq<Event>): Bytes
  {
    if t == [] then []
    else
      match t[|t| - 1].act
      case Request(frame, _, _, _, _) => Logged(t[..|t| - 1]) + frame
      case Failover(_, _) => []
      case _ => Logged(t[..|t| - 1])
  }

  lemma LogStep(w: World, s: State, a: Act)
    requires Allowed(w, s, a)
    ensures Done(w, s, a).fe.log == match a
                                    case Request(frame, _, _, _, _) => s.fe.log + frame
                                    case Failover(_, _) => []
                                    case _ => s.fe.log
  {
    hide QueryStarts, Refusal, Buffer.Drain, Front, HasFrame, MsgType, AfterRequest, AfterReply, AfterCopy, Size;
  }

  /** The log is what was requested since the last failover, over all turns. */
  lemma {:induction false} LogIsRequests(w: World, s0: State, t: seq<Event>)
    requires Obeys(w, s0, t) && Unbroken(t) && s0.fe.log == []
    ensures At(w, s0, t).fe.log == Logged(t)
    decreases |t|
  {
    hide Allowed, Done, Fails;
    if t != [] {
      StepAt(w, s0, t, |t| - 1);
      assert t[..|t| - 1 + 1] == t;
      LogIsRequests(w, s0, t[..|t| - 1]);
      LogStep(w, At(w, s0, t[..|t| - 1]), t[|t| - 1].act);
    }
  }

  predicate NoFailover(t: seq<Event>, i: nat, j: nat)
    requires i <= j <= |t|
  {
    forall k | i <= k < j :: !t[k].act.Failover?
  }

  /** The requests among some of the events. */
  function Requests(t: seq<Event>, i: nat, j: nat): Bytes
    requires i <= j <= |t|
    decreases j
  {
    if i == j then []
    else Requests(t, i, j - 1) + (if t[j - 1].act.Request? then t[j - 1].act.frame else [])
  }

  lemma {:induction false} LogSplits(t: seq<Event>, i: nat, j: nat)
    requires i <= j <= |t| && NoFailover(t, i, j)
    ensures Logged(t[..j]) == Logged(t[..i]) + Requests(t, i, j)
    decreases j
  {
    if i == j {
      assert Logged(t[..i]) + [] == Logged(t[..i]);
    } else {
      LogSplits(t, i, j - 1);
      assert t[..j][..j - 1] == t[..j - 1];
      Associates(Logged(t[..i]), Requests(t, i, j - 1), if t[j - 1].act.Request? then t[j - 1].act.frame else []);
    }
  }

  /** A failover sends the writer everything logged. With what the turn that began at `i` has requested that is
      the request of this turn alone exactly when nothing was logged before it: the log outlives answered requests. */
  lemma FailoverResends(w: World, s0: State, t: seq<Event>, i: nat, k: nat)
    requires Obeys(w, s0, t) && Unbroken(t) && Starts(s0) && s0.fe.log == []
    requires i < k < |t| && t[i].act.Turn? && SameTurn(t, i + 1, k) && t[k].act.Failover?
    ensures t[k].act.log == Logged(t[..i]) + Requests(t, i, k)
    ensures t[k].act.log == Requests(t, i, k) <==> Logged(t[..i]) == []
    ensures Obeys(w, s0, t[..k]) && Obeys(w, s0, t[..k + 1])
    ensures t[k].result.Fine? ==> At(w, s0, t[..k + 1]).toWriter == At(w, s0, t[..k]).toWriter + t[k].act.log
  {
    hide SameTurn, Requests, Logged, Run, NoFailover, Open;
    StepAt(w, s0, t, k);
    LogIsRequests(w, s0, t[..k]);
    FailoverSends(w, At(w, s0, t[..k]), t[k].act);
    FirstFailover(w, s0, t, i, k);
    LogSplits(t, i, k);
    SuffixOnly(Logged(t[..i]), Requests(t, i, k));
  }

  lemma SuffixOnly(a: Bytes, b: Bytes)
    ensures a + b == b <==> a == []
  {
    assert a + b == b ==> |a| == 0;
  }

  lemma FailoverSends(w: World, s: State, a: Act)
    requires Allowed(w, s, a) && a.Failover?
    ensures a.log == s.fe.log && Done(w, s, a).toWriter == s.toWriter + a.log
  {
  }

  lemma FirstFailover(w: World, s0: State, t: seq<Event>, i: nat, k: nat)
    requires Obeys(w, s0, t) && Starts(s0) && i < k < |t|
    requires t[i].act.Turn? && SameTurn(t, i + 1, k) && t[k].act.Failover?
    ensures NoFailover(t, i, k)
  {
    forall j | i <= j < k
      ensures !t[j].act.Failover?
    {
      if t[j].act.Failover? {
        OneFailoverPerTurn(w, s0, t, j, k);
      }
    }
  }

  /** So a request that went to the writer long ago is sent to it again, when it was not yet dropped from the log. */
  lemma AnsweredRequestsReplayed(w: World, s0: State, t: seq<Event>, j: nat, k: nat)
    requires Obeys(w, s0, t) && Unbroken(t) && s0.fe.log == [] && j < k < |t|
    requires t[j].act.Request? && t[j].act.to == Writer && NoFailover(t, j, k) && t[k].act.Failover?
    ensures t[k].act.log == Logged(t[..j]) + t[j].act.frame + Requests(t, j + 1, k)
  {
    hide Requests, Run;
    StepAt(w, s0, t, k);
    LogIsRequests(w, s0, t[..k]);
    FailoverSends(w, At(w, s0, t[..k]), t[k].act);
    LogSplits(t, j + 1, k);
    assert t[..j + 1][..j] == t[..j];
  }

  // The account of the client's octets.

  /** What an act takes off the client's stream. */
  function Taken(a: Act): Bytes
  {
    match a
    case Request(frame, _, _, _, _) => frame
    case CopyData(frame, _) => frame
    case Failover(_, dropped) => dropped
    case _ => []
  }

  /** ... and what it passes on of it. */
  function Forwarded(a: Act): Bytes
  {
    if a.Failover? then [] else Taken(a)
  }

  function TakenAll(t: seq<Event>): Bytes
  {
    if t == [] then [] else TakenAll(t[..|t| - 1]) + Taken(t[|t| - 1].act)
  }

  function ForwardedAll(t: seq<Event>): Bytes
  {
    if t == [] then [] else ForwardedAll(t[..|t| - 1]) + Forwarded(t[|t| - 1].act)
  }

  predicate NothingDropped(t: seq<Event>)
  {
    forall k :: 0 <= k < |t| && t[k].act.Failover? ==> t[k].act.dropped == []
  }

  lemma ClientStep(w: World, s: State, a: Act)
    requires Allowed(w, s, a)
    ensures s.fe.All() == Taken(a) + Done(w, s, a).fe.All()
  {
    hide QueryStarts, Refusal, Buffer.Drain, Buffer.Send, Take, Hear, Front, HasFrame, MsgType, AfterRequest,
         AfterReply, AfterCopy, Size;
    if a.Request? || a.CopyData? {
      OneMessageGone(s.fe, w.client);
    }
    assert s.fe.All() == [] + s.fe.All();
    assert [] + s.fe.rest == s.fe.rest;
  }

  /** Every octet of the client's is accounted for, in order. */
  lemma {:induction false} ClientAccount(w: World, s0: State, t: seq<Event>)
    requires Obeys(w, s0, t) && Unbroken(t)
    ensures s0.fe.All() == TakenAll(t) + At(w, s0, t).fe.All()
    decreases |t|
  {
    hide Allowed, Done, Fails, Buf.All;
    if t == [] {
      assert [] + s0.fe.All() == s0.fe.All();
    } else {
      StepAt(w, s0, t, |t| - 1);
      assert t[..|t| - 1 + 1] == t;
      ClientAccount(w, s0, t[..|t| - 1]);
      var s, a := At(w, s0, t[..|t| - 1]), t[|t| - 1].act;
      ClientStep(w, s, a);
      Associates(TakenAll(t[..|t| - 1]), Taken(a), Done(w, s, a).fe.All());
    }
  }

  lemma {:induction false} TakenAtLeastForwarded(t: seq<Event>)
    ensures |TakenAll(t)| >= |ForwardedAll(t)|
    ensures |TakenAll(t)| == |ForwardedAll(t)| ==> NothingDropped(t)
    ensures NothingDropped(t) ==> TakenAll(t) == ForwardedAll(t)
    decreases |t|
  {
    if t != [] {
      var n := |t| - 1;
      TakenAtLeastForwarded(t[..n]);
      assert NothingDropped(t) <==> NothingDropped(t[..n]) && (t[n].act.Failover? ==> t[n].act.dropped == []) by {
        assert forall k :: 0 <= k < n ==> t[..n][k] == t[k];
      }
    }
  }

  /** Everything the client sent and the session took is passed on, in order, if and only if no failover found
      pipelined octets in the buffer: those are dropped with the log. */
  lemma AllForwardedIff(w: World, s0: State, t: seq<Event>)
    requires Obeys(w, s0, t) && Unbroken(t)
    ensures s0.fe.All() == ForwardedAll(t) + At(w, s0, t).fe.All() <==> NothingDropped(t)
  {
    hide Run, NothingDropped, Smooth, TakenAll, ForwardedAll;
    ClientAccount(w, s0, t);
    TakenAtLeastForwarded(t);
    var rest := At(w, s0, t).fe.All();
    if TakenAll(t) + rest == ForwardedAll(t) + rest {
      assert |TakenAll(t) + rest| == |ForwardedAll(t) + rest|;
    }
  }

  /** What an act puts out to a backend. */
  function PutOut(a: Act, b: Backend): Bytes
  {
    match a
    case Request(frame, _, to, _, _) => if to == b then frame else []
    case CopyData(frame, to) => if to == b then frame else []
    case Failover(log, _) => if b == Writer then log else []
    case Bye => GOODBYE
    case _ => []
  }

  function PutOutAll(t: seq<Event>, b: Backend): Bytes
  {
    if t == [] then [] else PutOutAll(t[..|t| - 1], b) + PutOut(t[|t| - 1].act, b)
  }

  lemma PutOutStep(w: World, s: State, a: Act)
    requires Allowed(w, s, a)
    ensures Done(w, s, a).toReader == s.toReader + PutOut(a, Reader)
    ensures Done(w, s, a).toWriter == s.toWriter + PutOut(a, Writer)
  {
    hide QueryStarts, Refusal, Buffer.Drain, Buffer.Send, Take, Hear, Front, HasFrame, MsgType, AfterRequest,
         AfterReply, AfterCopy, Size;
    assert s.toReader + [] == s.toReader && s.toWriter + [] == s.toWriter;
  }

  /** The backends get exactly what the acts put out to them, in order. */
  lemma {:induction false} BackendsGetWhatIsPut(w: World, s0: State, t: seq<Event>)
    requires Obeys(w, s0, t) && Smooth(t)
    ensures At(w, s0, t).toReader == s0.toReader + PutOutAll(t, Reader)
    ensures At(w, s0, t).toWriter == s0.toWriter + PutOutAll(t, Writer)
    decreases |t|
  {
    hide Allowed, Done, Fails, PutOut;
    if t == [] {
      assert s0.toReader + [] == s0.toReader && s0.toWriter + [] == s0.toWriter;
    } else {
      var init := t[..|t| - 1];
      StepAt(w, s0, t, |init|);
      assert t[..|init| + 1] == t;
      BackendsGetWhatIsPut(w, s0, init);
      var a := t[|init|].act;
      PutOutStep(w, At(w, s0, init), a);
      Associates(s0.toReader, PutOutAll(init, Reader), PutOut(a, Reader));
      Associates(s0.toWriter, PutOutAll(init, Writer), PutOut(a, Writer));
    }
  }

  /** The router's own octets among them: the logs that are sent again, and the farewell. */
  predicate OnlyForwards(t: seq<Event>)
  {
    forall k :: 0 <= k < |t| ==> !t[k].act.Failover? && !t[k].act.Bye?
  }

  /** Without a failover, as long as the session lasts, what the backends get is together what was taken from the
      client: every octet goes to one of them, and each gets its own in order. */
  lemma {:induction false} ForwardedIsWoven(t: seq<Event>)
    requires OnlyForwards(t)
    ensures Woven(ForwardedAll(t), PutOutAll(t, Reader), PutOutAll(t, Writer))
    decreases |t|
  {
    hide Woven;
    if t == [] {
      NothingWoven();
    } else {
      var init, a := t[..|t| - 1], t[|t| - 1].act;
      ForwardedIsWoven(init);
      var r, w := PutOutAll(init, Reader), PutOutAll(init, Writer);
      assert r + [] == r && w + [] == w && ForwardedAll(init) + [] == ForwardedAll(init);
      MoreOfFirst(ForwardedAll(init), r, w, PutOut(a, Reader));
      MoreOfSecond(ForwardedAll(init), r, w, PutOut(a, Writer));
    }
  }

  lemma NothingWoven()
    ensures Woven([], [], [])
  {
  }

  /** So it is from the descriptors' point of view: what the client sent is woven from what each backend got of it,
      and what is still to come follows. */
  lemma ClientReachesBackends(w: World, s0: State, t: seq<Event>) returns (sent: Bytes, r: Bytes, wr: Bytes)
    requires Obeys(w, s0, t) && Smooth(t) && OnlyForwards(t)
    ensures s0.fe.All() == sent + At(w, s0, t).fe.All() && Woven(sent, r, wr)
    ensures At(w, s0, t).toReader == s0.toReader + r && At(w, s0, t).toWriter == s0.toWriter + wr
  {
    hide Run, Woven, ForwardedAll, PutOutAll, Buf.All;
    sent, r, wr := ForwardedAll(t), PutOutAll(t, Reader), PutOutAll(t, Writer);
    BackendsGetWhatIsPut(w, s0, t);
    ForwardedIsWoven(t);
    AllForwardedIff(w, s0, t);
  }

  // The account of the replies.

  /** The replies passed on among some of the events. */
  function Replied(t: seq<Event>, i: nat, j: nat): Bytes
    requires i <= j <= |t|
    decreases j
  {
    if i == j then [] else Replied(t, i, j - 1) + (if t[j - 1].act.Reply? then t[j - 1].act.frame else [])
  }

  /** A step after which replies are read from the same backend as before. */
  predicate KeepsSource(w: World, s0: State, t: seq<Event>, k: nat)
    requires Obeys(w, s0, t) && k < |t|
  {
    StepAt(w, s0, t, k);
    At(w, s0, t[..k + 1]).source == At(w, s0, t[..k]).source
  }

  /** What a step takes off what is to come from a backend: a reply that is passed on, or what is drained. */
  function Consumed(w: World, s0: State, t: seq<Event>, k: nat): Bytes
    requires Obeys(w, s0, t) && k < |t|
  {
    StepAt(w, s0, t, k);
    var all, all' := At(w, s0, t[..k]).be.All(), At(w, s0, t[..k + 1]).be.All();
    if t[k].act.Reply? then t[k].act.frame
    else if t[k].act.Drain? && |all'| <= |all| then all[..|all| - |all'|]
    else []
  }

  function ConsumedAll(w: World, s0: State, t: seq<Event>, i: nat, j: nat): Bytes
    requires Obeys(w, s0, t) && i <= j <= |t|
    decreases j
  {
    if i == j then [] else ConsumedAll(w, s0, t, i, j - 1) + Consumed(w, s0, t, j - 1)
  }

  lemma ReplyStep(w: World, s: State, a: Act)
    requires Allowed(w, s, a)
    ensures var s', r := Done(w, s, a), if a.Reply? then a.frame else [];
            && s'.toClient == s.toClient + r
            && (s'.source == s.source && !a.Drain? ==> s.be.All() == r + s'.be.All())
            && (s'.source != s.source ==> a.Turn? || a.Failover?)
            && (a.Reply? ==> a.from == s.source) && (a.Drain? ==> EndsIn(s.be.All(), s'.be.All()))
  {
    hide QueryStarts, Refusal, Buffer.Drain, Buffer.Send, Take, Hear, Front, HasFrame, MsgType, AfterRequest,
         AfterReply, AfterCopy, Size, EndsIn;
    if a.Reply? {
      OneMessageGone(s.be, w.Backend(s.source));
    } else if a.Drain? {
      DrainEndsIn(s.be, 'Z' as int, a.rounds, w.Backend(s.source));
    }
    assert s.be.All() == [] + s.be.All() && s.toClient + [] == s.toClient;
  }

  lemma {:induction false} DrainEndsIn(b: Buf, until: int, rounds: nat, pace: Pace)
    requires b.Ok()
    ensures EndsIn(b.All(), Buffer.Drain(b, until, rounds, pace).0.All())
    decreases rounds
  {
    hide Take, Hear, MsgType, EndsIn, Buf.Ok, Buf.All;
    EndsInItself(b.All());
    if rounds > 0 && MsgType(b.held) >= 0 {
      TakeEndsIn(b, pace);
      if MsgType(b.held) != until {
        var next := Hear(Take(b, pace), pace);
        DrainEndsIn(next, until, rounds - 1, pace);
        EndsInTwice(b.All(), next.All(), Buffer.Drain(next, until, rounds - 1, pace).0.All());
      }
    }
  }

  lemma EndsInSplits(all: Bytes, rest: Bytes)
    requires EndsIn(all, rest)
    ensures all == all[..|all| - |rest|] + rest
  {
  }

  /** The client gets exactly the replies that are passed on, over all turns and from whichever backend. */
  lemma {:induction false} ClientGetsReplies(w: World, s0: State, t: seq<Event>, i: nat, j: nat)
    requires Obeys(w, s0, t) && Unbroken(t) && i <= j <= |t|
    ensures Obeys(w, s0, t[..i]) && Obeys(w, s0, t[..j])
    ensures At(w, s0, t[..j]).toClient == At(w, s0, t[..i]).toClient + Replied(t, i, j)
    decreases j
  {
    hide Allowed, Done, Fails, Buf.All;
    StepAt(w, s0, t, i);
    StepAt(w, s0, t, j);
    var s := At(w, s0, t[..i]);
    if i == j {
      assert s.toClient + [] == s.toClient;
    } else {
      ClientGetsReplies(w, s0, t, i, j - 1);
      StepAt(w, s0, t, j - 1);
      var a := t[j - 1].act;
      ReplyStep(w, At(w, s0, t[..j - 1]), a);
      Associates(s.toClient, Replied(t, i, j - 1), if a.Reply? then a.frame else []);
    }
  }

  /** As long as replies are read from one backend, over any number of turns, every octet that it sends is accounted
      for in order: passed on, drained or still to come. */
  lemma {:induction false} RepliesInOrder(w: World, s0: State, t: seq<Event>, i: nat, j: nat)
    requires Obeys(w, s0, t) && Unbroken(t) && i <= j <= |t|
    requires forall k | i <= k < j :: KeepsSource(w, s0, t, k)
    ensures Obeys(w, s0, t[..i]) && Obeys(w, s0, t[..j])
    ensures At(w, s0, t[..i]).source == At(w, s0, t[..j]).source
    ensures At(w, s0, t[..i]).be.All() == ConsumedAll(w, s0, t, i, j) + At(w, s0, t[..j]).be.All()
    decreases j
  {
    hide Allowed, Done, Fails, Buf.All, Consumed, Run;
    StepAt(w, s0, t, i);
    StepAt(w, s0, t, j);
    if i == j {
      var s := At(w, s0, t[..i]);
      assert [] + s.be.All() == s.be.All();
    } else {
      RepliesInOrder(w, s0, t, i, j - 1);
      assert KeepsSource(w, s0, t, j - 1);
      ConsumedStep(w, s0, t, j - 1);
      Associates(ConsumedAll(w, s0, t, i, j - 1), Consumed(w, s0, t, j - 1), At(w, s0, t[..j]).be.All());
    }
  }

  lemma ConsumedStep(w: World, s0: State, t: seq<Event>, k: nat)
    requires Obeys(w, s0, t) && Unbroken(t) && k < |t| && KeepsSource(w, s0, t, k)
    ensures Obeys(w, s0, t[..k]) && Obeys(w, s0, t[..k + 1])
    ensures At(w, s0, t[..k]).be.All() == Consumed(w, s0, t, k) + At(w, s0, t[..k + 1]).be.All()
  {
    hide Allowed, Done, Fails, Buf.All;
    StepAt(w, s0, t, k);
    var s, s' := At(w, s0, t[..k]), At(w, s0, t[..k + 1]);
    ReplyStep(w, s, t[k].act);
    if t[k].act.Drain? {
      EndsInSplits(s.be.All(), s'.be.All());
    }
  }

  /** When the session turns to another backend, what is still to come from each stays, and so does what is buffered:
      what is left of one backend's replies is taken for the other's. */
  lemma SwitchKeepsStreams(w: World, s: State, a: Act, b: Backend)
    requires Allowed(w, s, a) && (a.Turn? || a.Failover?)
    ensures Rest(Done(w, s, a), b) == Rest(s, b) && Done(w, s, a).be.held == s.be.held
  {
  }

  /** A session that drains a refusal goes on if the walk over the reader's messages has an end, and then with what is
      left behind that; if it has none, the session drains for ever, however long it is watched. */
  lemma DrainedIff(w: World, s: State, a: Act)
    requires Allowed(w, s, a) && a.Drain? && NoSslRequest(s.be.All())
    ensures var s' := Done(w, s, a);
            match End(s.be.All(), 'Z' as int)
            case None => s'.phase.Purging?
            case Some((_, left)) =>
              && (a.rounds > |s.be.All()| ==> s'.phase.Drained?)
              && (s'.phase.Drained? ==> s'.be.All() == left)
  {
    hide Scan, Buffer.Drain, End, NoSslRequest;
    DrainEnds(s.be, 'Z' as int, a.rounds, w.Backend(s.source));
  }

  // The machine is determined.

  /** There is only one act the code comes to, up to how long a drain is watched. */
  lemma OneAct(w: World, s: State, a: Act, b: Act)
    requires Allowed(w, s, a) && Allowed(w, s, b)
    ensures a == b || (a.Drain? && b.Drain? && a.view == b.view)
  {
    hide QueryStarts, Scan, MsgType, Front;
  }

  lemma OneDrain(w: World, s: State, a: Act, b: Act)
    requires Allowed(w, s, a) && Allowed(w, s, b) && a.Drain? && b.Drain? && a.rounds <= b.rounds
    requires !Done(w, s, a).phase.Purging?
    ensures Done(w, s, a) == Done(w, s, b)
  {
    hide Refusal, Buffer.Drain, QueryStarts, Front;
    DrainStops(s.be, 'Z' as int, a.rounds, b.rounds, w.Backend(s.source));
  }

  lemma NothingAfterPurging(w: World, s: State, a: Act)
    requires Allowed(w, s, a)
    ensures !s.phase.Purging? && !s.phase.Ended?
  {
    hide QueryStarts, Refusal, Front;
  }

  /** A run whose drains are watched longer does the same as one that does not end in the middle of a drain. */
  lemma {:induction false} RunFollows(w: World, s: State, t: seq<Event>, u: seq<Event>)
    requires Obeys(w, s, t) && Obeys(w, s, u) && Smooth(t) && Smooth(u) && |t| == |u|
    requires forall i | 0 <= i < |u| && u[i].act.Drain? && t[i].act.Drain? :: u[i].act.rounds <= t[i].act.rounds
    requires !At(w, s, u).phase.Purging?
    ensures At(w, s, t) == At(w, s, u)
    decreases |u|
  {
    hide Allowed, Done, Fails;
    if u != [] {
      var n := |u| - 1;
      StepAt(w, s, t, n);
      StepAt(w, s, u, n);
      assert t[..n + 1] == t && u[..n + 1] == u;
      NothingAfterPurging(w, At(w, s, u[..n]), u[n].act);
      RunFollows(w, s, t[..n], u[..n]);
      ActFollows(w, At(w, s, u[..n]), t[n].act, u[n].act);
    }
  }

  lemma ActFollows(w: World, s: State, a: Act, b: Act)
    requires Allowed(w, s, a) && Allowed(w, s, b) && !Done(w, s, b).phase.Purging?
    requires a.Drain? && b.Drain? ==> b.rounds <= a.rounds
    ensures Done(w, s, a) == Done(w, s, b)
  {
    OneAct(w, s, a, b);
    if a.Drain? {
      OneDrain(w, s, b, a);
    } else {
      assert a == b;
    }
    assert Done(w, s, a) == Done(w, s, b);
  }

  // BEGIN.

  /** "begin" as a simple query. */
  function BeginMessage(): (m: Bytes)
    ensures |m| == 11
  {
    ['Q' as int, 0, 0, 0, 10, 'B' as int, 'E' as int, 'G' as int, 'I' as int, 'N' as int, 0]
  }

  /** A session whose client says BEGIN and nothing else. When less than ten octets of it arrive with the first
      read, it is not noticed and goes to the reader. When it is, it goes to the writer, and its reply is awaited
      from the reader. */
  lemma FirstBegin(w: World, s0: State, view: Bytes)
    requires Starts(s0) && s0.fe == Buf(16384, [], false, [], BeginMessage()) && s0.be.Ok()
    requires view == BeginMessage()[..ReadSize(16384, 11, w.client)] && |view| >= 5
    ensures var begins := |view| >= 10;
            var a := Request(BeginMessage(), view, if begins then Writer else Reader, begins, false);
            var t := [Event(Turn, Fine), Event(HearClient, Fine), Event(a, Fine)];
            && Obeys(w, s0, t) && At(w, s0, t).source == Reader
            && At(w, s0, t).toReader == (if begins then s0.toReader else s0.toReader + BeginMessage())
            && At(w, s0, t).toWriter == (if begins then s0.toWriter + BeginMessage() else s0.toWriter)
  {
    hide Possible, Next;
    var e, f := Event(Turn, Fine), Event(HearClient, Fine);
    var s := FirstHeard(w, s0, view);
    var a := FirstSaid(w, s, view);
    var g := Event(a, Fine);
    Append(w, s0, [e, f], g);
    assert [e, f] + [g] == [e, f, g];
  }

  lemma FirstHeard(w: World, s0: State, view: Bytes) returns (s: State)
    requires Starts(s0) && s0.fe == Buf(16384, [], false, [], BeginMessage()) && s0.be.Ok()
    requires view == BeginMessage()[..ReadSize(16384, 11, w.client)] && |view| >= 5
    ensures s == s0.(phase := Look, fe := Buf(16384, [], false, view, BeginMessage()[|view|..]))
    ensures Run(w, s0, [Event(Turn, Fine), Event(HearClient, Fine)]) == Some(s)
  {
    hide ReadSize, Hear, BeginMessage, Run, Fails, Buf.Ok;
    FirstRead(16384, BeginMessage(), view, w.client);
    var e, f := Event(Turn, Fine), Event(HearClient, Fine);
    var s1 := s0.(phase := Await);
    s := s1.(phase := Look, fe := Hear(s1.fe, w.client));
    RunNothing(w, s0);
    Append(w, s0, [], e);
    assert [] + [e] == [e] && [e] + [f] == [e, f];
    Append(w, s0, [e], f);
  }

  lemma FirstRead(len: nat, message: Bytes, view: Bytes, pace: Pace)
    requires view == message[..ReadSize(len, |message|, pace)] && |view| >= 5
    ensures Buf(len, [], false, [], message).Ok()
    ensures Hear(Buf(len, [], false, [], message), pace) == Buf(len, [], false, view, message[|view|..])
  {
    hide ReadSize, Hearing;
    var rest := message[|view|..];
    assert view + rest == [] + message;
    HearingNext([], message, len, pace, view, rest);
    HearingDone(view, rest, len - |view|, pace);
  }

  lemma FirstSaid(w: World, s: State, view: Bytes) returns (a: Act)
    requires s.phase.Look? && !s.inTxn && s.befd == s.source == Reader && s.be.Ok() && 5 <= |view| <= 11
    requires view == BeginMessage()[..|view|] && s.fe == Buf(16384, [], false, view, BeginMessage()[|view|..])
    ensures var begins := |view| >= 10;
            && a == Request(BeginMessage(), view, if begins then Writer else Reader, begins, false)
            && Possible(w, s, Event(a, Fine)) && Next(w, s, Event(a, Fine)).source == Reader
            && Next(w, s, Event(a, Fine)).toReader == (if begins then s.toReader else s.toReader + BeginMessage())
            && Next(w, s, Event(a, Fine)).toWriter == (if begins then s.toWriter + BeginMessage() else s.toWriter)
  {
    hide Buffer.Send, QueryStarts, Front, BeginMessage, Fails;
    var begins := |view| >= 10;
    a := Request(BeginMessage(), view, if begins then Writer else Reader, begins, false);
    assert BeginMessage()[..|view|] + BeginMessage()[|view|..] == BeginMessage();
    BeginSays(view);
  }

  lemma BeginSays(view: Bytes)
    requires 5 <= |view| <= |BeginMessage()| && view == BeginMessage()[..|view|]
    ensures QueryStarts(view, BEGIN) <==> |view| >= 10
    ensures !QueryStarts(view, COMMIT) && Front(BeginMessage()) == BeginMessage()
  {
    hide QueryStarts, Front, BeginMessage;
    BeginIsSaid();
    NoticedIff(BeginMessage(), view, BEGIN);
    NoticedIff(BeginMessage(), view, COMMIT);
    NotBoth(BeginMessage());
  }

  lemma BeginIsSaid()
    ensures QueryStarts(BeginMessage(), BEGIN) && Front(BeginMessage()) == BeginMessage()
  {
    assert BeginMessage()[1..][..4] == [0, 0, 0, 10];
    BeginIs(BeginMessage());
  }
}
