/**
 * ServerProgram: the lifecycle flags, the bound request processor and the
 * accept loop's admission branch, over an abstract listening socket.  start()
 * returns here once the socket is open; the accept loop is the separate method
 * AwaitClientConnections, driven by a schedule that interleaves accepted
 * connections with the ends of the workers handed to the pool's executor.
 */
module Server {
  import opened Wrappers
  import opened Text
  import opened Protocol
  import opened Processors
  import Lifecycle
  import Admission
  import opened ServerWorker

  datatype StartResult =
    | AlreadyStarted   // the IllegalStateException of a second start
    | BindFailed       // new ServerSocket(port) threw; start() ends in an Error
    | Listening        // the socket is open and the server is started and running

  /** What became of one accept() of the loop. */
  datatype Accepted =
    | AcceptFailed                 // accept() threw; the loop logs it and goes on
    | Rejected(reply: seq<string>) // rejectClient wrote `reply` and closed the socket
    | Dispatched(id: nat)          // worker number `id` was handed to the executor

  /** The lines rejectClient writes to a refused client. */
  function RejectionReply(): (reply: seq<string>)
    ensures |reply| == 1 && StartsWith(reply[0], ERR) && Contains(reply[0], ERR)
    ensures SUCC !in reply
  {
    assert REJECTION[..|ERR|] == ERR;
    StartsWithContains(REJECTION, ERR);
    [REJECTION]
  }

  class ServerProgram {
    /** mFlags */
    var flags: bv8
    /** mPort */
    var port: int
    /** Whether mServerSocket has been opened. */
    var listening: bool
    /** sClientCount */
    var clientCount: int
    /** mProcessor; None is null. */
    var processor: Option<Processor>
    /** The workers handed to the executor, in dispatch order. */
    var workers: seq<Worker>
    /** The dispatch numbers of the admitted workers that have not ended yet. */
    var live: set<nat>

    /** The admission state these fields implement. */
    function PoolView(): Admission.Pool
      reads this
    {
      Admission.Pool(clientCount, live, |workers|)
    }

    ghost predicate Valid()
      reads this
    {
      && Admission.Inv(PoolView())
      && (listening ==> Lifecycle.Started(flags) && Lifecycle.Running(flags))
      && (!listening ==> clientCount == 0 && workers == [] && live == {})
    }

    /** The private constructor: no flag set, the echo processor bound. */
    constructor ()
      ensures Valid()
      ensures flags == 0 && !listening && processor == Some(Echo)
      ensures clientCount == 0 && workers == [] && live == {}
    {
      flags := 0;
      port := 0;
      listening := false;
      clientCount := 0;
      processor := Some(Echo);
      workers := [];
      live := {};
    }

    /** isStarted */
    function IsStarted(): (b: bool)
      reads this
      ensures Valid() && listening ==> b
    {
      Lifecycle.Started(flags)
    }

    /** isRunning */
    function IsRunning(): (b: bool)
      reads this
      ensures Valid() && listening ==> b
    {
      Lifecycle.Running(flags)
    }

    /** getRequestProcessor */
    function GetRequestProcessor(): Option<Processor>
      reads this
    {
      processor
    }

    /**
     * start(port), up to the point where it enters the accept loop.
     * `bindOk` says whether the listening socket could be opened.
     */
    method Start(newPort: int, bindOk: bool) returns (r: StartResult)
      requires Valid()
      modifies this
      ensures Valid()
      ensures r == AlreadyStarted <==> Lifecycle.Started(old(flags))
      ensures r == AlreadyStarted ==>
        unchanged(this)
      ensures r == BindFailed <==> !Lifecycle.Started(old(flags)) && !bindOk
      ensures r != AlreadyStarted ==>
        && port == newPort && clientCount == 0 && workers == [] && live == {}
        && processor == old(processor)
      ensures r == BindFailed ==> flags == old(flags) && !listening
      ensures r == Listening ==> flags == Lifecycle.START_FLAGS && listening
      ensures r == Listening ==> IsStarted() && IsRunning()
    {
      if Lifecycle.Started(flags) {
        return AlreadyStarted;
      }
      port := newPort;
      clientCount := 0;
      if !bindOk {
        return BindFailed;
      }
      listening := true;
      flags := Lifecycle.FLAG_STARTED | Lifecycle.FLAG_RUNNING;
      Lifecycle.StartFlags();
      r := Listening;
    }

    /** pauseClientConnections, as written. */
    method PauseClientConnections()
      requires Valid()
      modifies this`flags
      ensures Valid()
      ensures flags == Lifecycle.Pause(old(flags))
      ensures IsStarted() && IsRunning() == old(IsRunning())
    {
      flags := flags | !Lifecycle.FLAG_RUNNING;
    }

    /**
     * resumeClientConnections.  `reentersLoop` is whether the source then
     * re-enters the accept loop.
     */
    method ResumeClientConnections() returns (reentersLoop: bool)
      requires Valid()
      modifies this`flags
      ensures Valid()
      ensures flags == Lifecycle.Resume(old(flags))
      ensures reentersLoop == !old(IsRunning())
      ensures IsRunning() && IsStarted() == old(IsStarted())
    {
      reentersLoop := !Lifecycle.Running(flags);
      if reentersLoop {
        flags := flags | Lifecycle.FLAG_RUNNING;
      }
    }

    /** setRequestProcessor: later dispatches use `p`; dispatched workers keep theirs. */
    method SetRequestProcessor(p: Option<Processor>)
      requires Valid()
      modifies this`processor
      ensures Valid()
      ensures GetRequestProcessor() == p
    {
      processor := p;
    }

    /**
     * One pass of the accept loop's body.  `acceptOk` is false when accept()
     * threw.  An accepted client is refused when the counter has reached the
     * pool's maximum size; otherwise the counter goes up by one and a worker
     * holding the current processor is dispatched.
     */
    method AcceptClient(acceptOk: bool) returns (a: Accepted)
      requires Valid() && listening
      modifies this`clientCount, this`workers, this`live
      ensures Valid()
      ensures PoolView() == Admission.Step(old(PoolView()), if acceptOk then Admission.Connect else Admission.AcceptError)
      ensures !acceptOk ==> a == AcceptFailed
      ensures acceptOk && old(clientCount) >= Admission.MAX_POOL_SIZE ==> a == Rejected(RejectionReply())
      ensures acceptOk && old(clientCount) < Admission.MAX_POOL_SIZE ==>
        a == Dispatched(old(|workers|)) && workers == old(workers) + [Worker(processor)]
      ensures !a.Dispatched? ==> workers == old(workers)
    {
      if !acceptOk {
        return AcceptFailed;
      }
      Admission.AdmissionRule(PoolView());
      Admission.StepPreservesInv(PoolView(), Admission.Connect);
      if clientCount >= Admission.MAX_POOL_SIZE {
        a := Rejected(RejectionReply());
      } else {
        clientCount := clientCount + 1;
        live := live + {|workers|};
        a := Dispatched(|workers|);
        workers := workers + [Worker(processor)];
      }
    }

    /**
     * The end of worker `id`'s run: the decrement after the loop, or, when
     * its socket reference had been cleared, the early return that skips it.
     */
    method WorkerExited(id: nat, socketAlive: bool)
      requires Valid()
      modifies this`clientCount, this`live
      ensures Valid()
      ensures PoolView() == Admission.Step(old(PoolView()), if socketAlive then Admission.Exit(id) else Admission.ExitReclaimed(id))
    {
      var e := if socketAlive then Admission.Exit(id) else Admission.ExitReclaimed(id);
      Admission.StepPreservesInv(PoolView(), e);
      if id in live {
        if socketAlive {
          clientCount := clientCount - 1;
        }
        live := live - {id};
      }
    }

    /**
     * One event of the accept loop's schedule: an accept() that succeeded or
     * threw, or the end of a worker on its pool thread.  `a` is what became of
     * the accept, None for a worker's end.
     */
    method Serve(e: Admission.Event) returns (a: Option<Accepted>)
      requires Valid() && listening
      modifies this`clientCount, this`workers, this`live
      ensures Valid()
      ensures PoolView() == Admission.Step(old(PoolView()), e)
      ensures a.None? <==> e.Exit? || e.ExitReclaimed?
      ensures a.Some? ==> (a.value == AcceptFailed <==> e == Admission.AcceptError)
      ensures a.Some? && a.value.Rejected? ==> a.value.reply == RejectionReply()
      ensures a.Some? && a.value.Dispatched? ==> workers == old(workers) + [Worker(processor)]
      ensures !(a.Some? && a.value.Dispatched?) ==> workers == old(workers)
    {
      match e {
        case Connect =>
          var r := AcceptClient(true);
          a := Some(r);
        case AcceptError =>
          var r := AcceptClient(false);
          a := Some(r);
        case Exit(id) =>
          WorkerExited(id, true);
          a := None;
        case ExitReclaimed(id) =>
          WorkerExited(id, false);
          a := None;
      }
    }

    /**
     * awaitClientConnections: loops while RUNNING is set.  Nothing in the loop
     * clears RUNNING, so the whole schedule is served.
     */
    method AwaitClientConnections(schedule: seq<Admission.Event>)
      requires Valid() && listening
      modifies this`clientCount, this`workers, this`live
      ensures Valid()
      ensures PoolView() == Admission.Run(old(PoolView()), schedule)
      ensures |workers| >= old(|workers|) && workers[..old(|workers|)] == old(workers)
      ensures forall k :: old(|workers|) <= k < |workers| ==> workers[k] == Worker(processor)
    {
      var i := 0;
      while Lifecycle.Running(flags) && i < |schedule|
        invariant 0 <= i <= |schedule|
        invariant Valid()
        invariant PoolView() == Admission.Run(old(PoolView()), schedule[..i])
        invariant |workers| >= old(|workers|) && workers[..old(|workers|)] == old(workers)
        invariant forall k :: old(|workers|) <= k < |workers| ==> workers[k] == Worker(processor)
        decreases |schedule| - i
      {
        Admission.RunNext(old(PoolView()), schedule, i);
        var _ := Serve(schedule[i]);
        i := i + 1;
      }
      assert schedule[..i] == schedule;
    }
  }

  /**
   * A processor swap between two admissions: the first worker keeps the echo
   * processor, the second gets the new one; pausing in between does not stop
   * the loop from admitting.
   */
  method SwapBetweenAdmissions(custom: string -> string)
  {
    var server := new ServerProgram();
    var started := server.Start(8080, true);
    assert started == Listening;
    assert server.clientCount == 0 && server.workers == [];
    var first := server.AcceptClient(true);
    assert first == Dispatched(0);
    assert server.clientCount == 1 && server.workers == [Worker(Some(Echo))];
    server.SetRequestProcessor(Some(Custom(custom)));
    server.PauseClientConnections();
    assert server.IsRunning();
    var second := server.AcceptClient(true);
    assert second == Dispatched(1);
    assert server.workers == [Worker(Some(Echo)), Worker(Some(Custom(custom)))];
    var again := server.Start(9090, true);
    assert again == AlreadyStarted;
  }
}
