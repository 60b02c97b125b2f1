// A command of the caf bridge: one kernel launch for one request. It is
// reference counted; `enqueue` takes a reference for the command queue,
// launches the kernel after the input transfers, enqueues one read per
// result container, a marker and a completion callback. The callback
// builds the reply, delivers it and gives the reference back; every failure
// on the way gives it back at once. The destructor releases all events.
// The callback runs on a driver thread in the source; here it is the
// separate method `OnComplete`, callable once a callback is registered.
module Command {
  import opened Types
  import opened Driver
  import opened SpawnConfig

  /** `std::tuple<strong_actor_ptr, message_id>`: who gets the reply, under which id. */
  datatype ReplyTo = ReplyTo(receiver: ActorId, mid: MessageId)

  /** A message delivered by the runtime: receiver, sender, message id, content. */
  datatype Reply = Reply(receiver: ActorId, sender: ActorId, mid: MessageId, content: Message)

  /** What the command reads from its facade. */
  datatype FacadeView = FacadeView(address: ActorId, queue: Handle, kernel: Handle, spawnCfg: SpawnConfig,
                                   mapResults: Option<seq<Value> -> Message>)

  /** How `enqueue` ended; `Launched` names the kernel event and the marker it kept. */
  datatype EnqueueOutcome =
    | LaunchFailed(status: ClInt)
    | ReadFailed(index: nat, status: ClInt)
    | MarkerFailed(status: ClInt)
    | CallbackFailed(status: ClInt, marker: Handle)
    | Launched(kernelEvent: Handle, marker: Handle)

  /** `std::vector::resize`: keeps the first `n` elements and pads with zeros. */
  function Resize(v: seq<int>, n: nat): (r: seq<int>)
    ensures |r| == n
    ensures forall i :: 0 <= i < n && i < |v| ==> r[i] == v[i]
    ensures forall i :: |v| <= i < n ==> r[i] == 0
  {
    if n <= |v| then v[..n] else v + seq(n - |v|, _ => 0)
  }

  /**
   * `message_from_results`: every result container becomes one element of
   * the reply, typed as the output type at its position.
   */
  function Pack(outputTypes: seq<CType>, results: seq<seq<int>>): (r: Message)
    requires |results| == |outputTypes|
    ensures MatchElements(r, outputTypes)
    ensures forall i :: 0 <= i < |r| ==> r[i].elems == results[i]
  {
    seq(|results|, i requires 0 <= i < |results| => Value(outputTypes[i], results[i]))
  }

  /** The calls the marker and its wait list make: with a wait list on Apple's platform, without elsewhere. */
  function MarkerCall(apple: bool, queue: Handle, waitList: seq<Handle>): Call {
    if apple then EnqueueMarkerWithWaitList(queue, waitList) else EnqueueMarker(queue)
  }

  class Command {
    const resultSizes: seq<SizeT>
    const handle: ReplyTo
    const facade: FacadeView
    const memInEvents: seq<Handle>
    const inputBuffers: seq<Handle>
    const outputBuffers: seq<Handle>
    /** `Ts...`: the type of each result container, and `sizeof` of its elements. */
    const outputTypes: seq<CType>
    const elementSize: CType -> nat
    const msg: Message
    var memOutEvents: seq<Handle>
    var resultBuffers: seq<seq<int>>
    /** The reference count of `ref_counted`. */
    var refs: nat
    /** Completion callbacks registered and not yet run. */
    ghost var pendingCallbacks: nat
    /** Every reply this command delivered, in order. */
    ghost var outbox: seq<Reply>

    constructor (handle: ReplyTo, facade: FacadeView, events: seq<Handle>, inputBuffers: seq<Handle>,
                 outputBuffers: seq<Handle>, resultSizes: seq<SizeT>, msg: Message,
                 outputTypes: seq<CType>, elementSize: CType -> nat)
      ensures this.handle == handle && this.facade == facade && memInEvents == events
      ensures this.inputBuffers == inputBuffers && this.outputBuffers == outputBuffers
      ensures this.resultSizes == resultSizes && this.msg == msg
      ensures this.outputTypes == outputTypes && this.elementSize == elementSize
      ensures memOutEvents == [] && resultBuffers == seq(|outputTypes|, _ => [])
      ensures refs == 1 && pendingCallbacks == 0 && outbox == []
    {
      this.handle, this.facade, memInEvents := handle, facade, events;
      this.inputBuffers, this.outputBuffers := inputBuffers, outputBuffers;
      this.resultSizes, this.msg := resultSizes, msg;
      this.outputTypes, this.elementSize := outputTypes, elementSize;
      memOutEvents := [];
      resultBuffers := seq(|outputTypes|, _ => []);
      refs := 1;
      pendingCallbacks := 0;
      outbox := [];
    }

    /** The read-back of result container `i`: from output buffer `i`, `sizeof * result_sizes_[i]` bytes, after the kernel. */
    function ReadCall(i: nat, kernelDone: Handle): Call
      requires i < |outputTypes| && i < |outputBuffers| && i < |resultSizes|
    {
      EnqueueReadBuffer(facade.queue, outputBuffers[i], ByteSize(elementSize(outputTypes[i]), resultSizes[i]),
                        [kernelDone])
    }

    /** The launch call: the spawn geometry, waiting on exactly the input transfers. */
    function LaunchCall(): Call {
      var cfg := facade.spawnCfg;
      EnqueueNDRangeKernel(facade.queue, facade.kernel, |cfg.dimensions|, cfg.offsets, cfg.dimensions,
                           cfg.localDimensions, memInEvents)
    }

    /** The reply `handle_results` builds: the output mapper's message, or the packed containers. */
    function ReplyContent(results: seq<seq<int>>): (r: Message)
      requires |results| == |outputTypes|
      ensures facade.mapResults.None? ==> MatchElements(r, outputTypes) &&
                                          forall i :: 0 <= i < |r| ==> r[i].elems == results[i]
      ensures facade.mapResults.Some? ==> r == facade.mapResults.value(Pack(outputTypes, results))
    {
      var packed := Pack(outputTypes, results);
      if facade.mapResults.Some? then facade.mapResults.value(packed) else packed
    }

    /** The log of `n` successful read-backs, in container order. */
    function ReadsLog(n: nat, kernelDone: Handle): (r: seq<Entry>)
      requires n <= |outputTypes| && n <= |outputBuffers| && n <= |resultSizes|
      ensures |r| == n && forall j :: 0 <= j < n ==> r[j] == Entry(ReadCall(j, kernelDone), CL_SUCCESS)
    {
      seq(n, j requires 0 <= j < n => Entry(ReadCall(j, kernelDone), CL_SUCCESS))
    }

    /** The first `n` read-backs, in container order. */
    function ReadCalls(n: nat, kernelDone: Handle): (r: seq<Call>)
      requires n <= |outputTypes| && n <= |outputBuffers| && n <= |resultSizes|
      ensures |r| == n && forall j :: 0 <= j < n ==> r[j] == ReadCall(j, kernelDone)
    {
      seq(n, j requires 0 <= j < n => ReadCall(j, kernelDone))
    }

    /** One more read-back extends the objects the reads made by its event. */
    lemma ReadsMadeStep(n: nat, kernelDone: Handle, events: seq<Handle>, event: Handle)
      requires n < |outputTypes| && n < |outputBuffers| && n < |resultSizes| && |events| == n
      ensures Made(ReadCalls(n + 1, kernelDone), events + [event]) ==
              Made(ReadCalls(n, kernelDone), events) + [Creation(ReadCall(n, kernelDone), event)]
    {
    }

    /** The containers after the first `n` were resized to their result sizes. */
    function ResizedUpTo(buffers: seq<seq<int>>, n: nat): (r: seq<seq<int>>)
      requires |buffers| <= |resultSizes|
      ensures |r| == |buffers|
      ensures forall j :: 0 <= j < |buffers| ==> r[j] == if j < n then Resize(buffers[j], resultSizes[j]) else buffers[j]
    {
      seq(|buffers|, j requires 0 <= j < |buffers| => if j < n then Resize(buffers[j], resultSizes[j]) else buffers[j])
    }

    /**
     * `enqueue_read_buffers`: for each result container in order, resize it
     * to its result size and read it back from its output buffer once the
     * kernel is done, keeping the read event. A failed read gives the
     * queue's reference back and throws; `done` counts the reads enqueued.
     */
    method EnqueueReadBuffers(driver: Driver, kernelDone: Handle) returns (done: nat, failure: Option<ClInt>)
      requires |outputTypes| <= |outputBuffers| && |outputTypes| <= |resultSizes|
      requires |resultBuffers| == |outputTypes| && refs >= 1
      modifies this`memOutEvents, this`resultBuffers, this`refs, driver
      ensures done <= |outputTypes| && (failure.None? <==> done == |outputTypes|)
      ensures refs == old(refs) - (if failure.Some? then 1 else 0)
      ensures |memOutEvents| == |old(memOutEvents)| + done && memOutEvents[..|old(memOutEvents)|] == old(memOutEvents)
      ensures driver.created ==
                old(driver.created) + Made(ReadCalls(done, kernelDone), memOutEvents[|old(memOutEvents)|..])
      ensures failure.None? ==> driver.log == old(driver.log) + ReadsLog(done, kernelDone) &&
                                resultBuffers == ResizedUpTo(old(resultBuffers), done)
      ensures failure.Some? ==> failure.value != CL_SUCCESS &&
                                driver.log == old(driver.log) + ReadsLog(done, kernelDone) +
                                              [Entry(ReadCall(done, kernelDone), failure.value)] &&
                                resultBuffers == ResizedUpTo(old(resultBuffers), done + 1)
    {
      ghost var e0 := |memOutEvents|;
      done := 0;
      while done < |outputTypes|
        invariant 0 <= done <= |outputTypes|
        invariant driver.log == old(driver.log) + ReadsLog(done, kernelDone)
        invariant resultBuffers == ResizedUpTo(old(resultBuffers), done)
        invariant |memOutEvents| == e0 + done && memOutEvents[..e0] == old(memOutEvents)
        invariant driver.created == old(driver.created) + Made(ReadCalls(done, kernelDone), memOutEvents[e0..])
        invariant refs == old(refs)
      {
        resultBuffers := resultBuffers[done := Resize(resultBuffers[done], resultSizes[done])];
        assert resultBuffers == ResizedUpTo(old(resultBuffers), done + 1);
        var err, event := driver.Create(ReadCall(done, kernelDone));
        if err != CL_SUCCESS {
          refs := refs - 1;
          return done, Some(err);
        }
        assert ReadsLog(done + 1, kernelDone) == ReadsLog(done, kernelDone) + [Entry(ReadCall(done, kernelDone), CL_SUCCESS)];
        ghost var readEvents := memOutEvents[e0..];
        memOutEvents := memOutEvents + [event];
        assert memOutEvents[e0..] == readEvents + [event];
        ReadsMadeStep(done, kernelDone, readEvents, event);
        done := done + 1;
      }
      failure := None;
    }

    /**
     * The end of `enqueue` after the reads: the marker (with the output
     * events as wait list on Apple's platform), the completion callback on
     * it and the flush. A failed marker or callback registration releases
     * the marker and the kernel event and gives the queue's reference back.
     */
    method RegisterCompletion(driver: Driver, apple: bool, kernelEvent: Handle) returns (r: EnqueueOutcome)
      requires refs >= 1
      modifies this`memOutEvents, this`refs, this`pendingCallbacks, driver
      ensures r.MarkerFailed? || r.CallbackFailed? || r.Launched?
      ensures r.Launched? ==> r.kernelEvent == kernelEvent
      ensures refs == old(refs) - (if r.Launched? then 0 else 1)
      ensures pendingCallbacks == old(pendingCallbacks) + (if r.Launched? then 1 else 0)
      ensures memOutEvents == old(memOutEvents) + (if r.Launched? then [kernelEvent, r.marker] else [])
      ensures r.MarkerFailed? ==> driver.created == old(driver.created)
      ensures r.Launched? || r.CallbackFailed? ==>
                driver.created == old(driver.created) + [Creation(MarkerCall(apple, facade.queue, old(memOutEvents)), r.marker)]
      ensures |driver.log| > |old(driver.log)| && driver.log[..|old(driver.log)|] == old(driver.log)
      ensures driver.log[|old(driver.log)|].call == MarkerCall(apple, facade.queue, old(memOutEvents))
      ensures r.MarkerFailed? <==> driver.log[|old(driver.log)|].status != CL_SUCCESS
      ensures r.Launched? ==>
                |driver.log| == |old(driver.log)| + 3 &&
                driver.log[..|old(driver.log)| + 2] ==
                  old(driver.log) + [Entry(MarkerCall(apple, facade.queue, old(memOutEvents)), CL_SUCCESS),
                                     Entry(SetEventCallback(r.marker), CL_SUCCESS)] &&
                driver.log[|old(driver.log)| + 2].call == Flush(facade.queue)
      ensures !r.Launched? ==>
                |driver.log| >= |old(driver.log)| + 3 &&
                driver.log[|driver.log| - 1].call == ReleaseEvent(kernelEvent) &&
                driver.log[|driver.log| - 2].call.ReleaseEvent?
      ensures r.CallbackFailed? ==> driver.log[|driver.log| - 2].call == ReleaseEvent(r.marker)
    {
      var err, marker := driver.Create(MarkerCall(apple, facade.queue, memOutEvents));
      if err != CL_SUCCESS {
        var _ := driver.Invoke(ReleaseEvent(marker));
        var _ := driver.Invoke(ReleaseEvent(kernelEvent));
        refs := refs - 1;
        return MarkerFailed(err);
      }
      err := driver.Invoke(SetEventCallback(marker));
      if err != CL_SUCCESS {
        var _ := driver.Invoke(ReleaseEvent(marker));
        var _ := driver.Invoke(ReleaseEvent(kernelEvent));
        refs := refs - 1;
        return CallbackFailed(err, marker);
      }
      pendingCallbacks := pendingCallbacks + 1;
      var _ := driver.Invoke(Flush(facade.queue));
      memOutEvents := memOutEvents + [kernelEvent, marker];
      r := Launched(kernelEvent, marker);
    }

    /**
     * The part of `enqueue` after a successful launch: the reads after
     * `kernelEvent`, then marker, callback and flush. Every failure has
     * given the queue's reference back.
     */
    method ReadThenRegister(driver: Driver, apple: bool, kernelEvent: Handle) returns (r: EnqueueOutcome)
      requires |outputTypes| <= |outputBuffers| && |outputTypes| <= |resultSizes|
      requires |resultBuffers| == |outputTypes| && refs >= 1
      modifies this`memOutEvents, this`resultBuffers, this`refs, this`pendingCallbacks, driver
      ensures !r.LaunchFailed?
      ensures refs == old(refs) - (if r.Launched? then 0 else 1)
      ensures pendingCallbacks == old(pendingCallbacks) + (if r.Launched? then 1 else 0)
      ensures |resultBuffers| == |outputTypes|
      ensures |driver.log| >= |old(driver.log)| && driver.log[..|old(driver.log)|] == old(driver.log)
      ensures r.ReadFailed? ==> |memOutEvents| == |old(memOutEvents)| + r.index &&
                                memOutEvents[..|old(memOutEvents)|] == old(memOutEvents)
      ensures r.MarkerFailed? || r.CallbackFailed? ==>
                |memOutEvents| == |old(memOutEvents)| + |outputTypes| &&
                memOutEvents[..|old(memOutEvents)|] == old(memOutEvents)
      ensures r.Launched? ==>
                var n, e0, t0 := |outputTypes|, |old(memOutEvents)|, |old(driver.log)|;
                r.kernelEvent == kernelEvent &&
                |memOutEvents| == e0 + n + 2 && memOutEvents[..e0] == old(memOutEvents) &&
                memOutEvents[e0 + n] == kernelEvent && memOutEvents[e0 + n + 1] == r.marker &&
                resultBuffers == ResizedUpTo(old(resultBuffers), n) &&
                |driver.log| == t0 + n + 3 &&
                driver.log[..t0 + n + 2] ==
                  old(driver.log) + ReadsLog(n, kernelEvent) +
                  [Entry(MarkerCall(apple, facade.queue, memOutEvents[..e0 + n]), CL_SUCCESS),
                   Entry(SetEventCallback(r.marker), CL_SUCCESS)] &&
                driver.log[t0 + n + 2].call == Flush(facade.queue) &&
                driver.created == old(driver.created) +
                                  Made(ReadCalls(n, kernelEvent), memOutEvents[e0..e0 + n]) +
                                  [Creation(MarkerCall(apple, facade.queue, memOutEvents[..e0 + n]), r.marker)]
    {
      var done, readFailure := EnqueueReadBuffers(driver, kernelEvent);
      assert driver.log[..|old(driver.log)|] == old(driver.log);
      if readFailure.Some? {
        return ReadFailed(done, readFailure.value);
      }
      ghost var read := driver.log;
      ghost var readEvents := memOutEvents;
      r := RegisterCompletion(driver, apple, kernelEvent);
      assert driver.log[..|read|] == read;
      if r.Launched? {
        assert memOutEvents[..|old(memOutEvents)| + |outputTypes|] == readEvents;
        assert memOutEvents[|old(memOutEvents)|..|old(memOutEvents)| + |outputTypes|] ==
               readEvents[|old(memOutEvents)|..];
        assert driver.log[..|read| + 2] == read + driver.log[|read|..|read| + 2];
      }
    }

    /**
     * `enqueue`: one reference for the command queue, the kernel launch,
     * the reads, then marker, callback and flush. Each failure gives the
     * reference back; only a registered callback keeps it.
     */
    method Enqueue(driver: Driver, apple: bool) returns (r: EnqueueOutcome)
      requires |outputTypes| <= |outputBuffers| && |outputTypes| <= |resultSizes|
      requires |resultBuffers| == |outputTypes|
      modifies this`memOutEvents, this`resultBuffers, this`refs, this`pendingCallbacks, driver
      ensures refs == old(refs) + (if r.Launched? then 1 else 0)
      ensures pendingCallbacks == old(pendingCallbacks) + (if r.Launched? then 1 else 0)
      ensures |driver.log| > |old(driver.log)| && driver.log[..|old(driver.log)|] == old(driver.log)
      ensures driver.log[|old(driver.log)|].call == LaunchCall()
      ensures r.LaunchFailed? <==> driver.log[|old(driver.log)|].status != CL_SUCCESS
      ensures r.LaunchFailed? ==>
                |driver.log| == |old(driver.log)| + 2 && driver.log[|old(driver.log)| + 1].call.ReleaseEvent? &&
                memOutEvents == old(memOutEvents) && resultBuffers == old(resultBuffers)
      ensures |resultBuffers| == |outputTypes|
      ensures r.ReadFailed? ==> |memOutEvents| == |old(memOutEvents)| + r.index &&
                                memOutEvents[..|old(memOutEvents)|] == old(memOutEvents)
      ensures r.MarkerFailed? || r.CallbackFailed? ==>
                |memOutEvents| == |old(memOutEvents)| + |outputTypes| &&
                memOutEvents[..|old(memOutEvents)|] == old(memOutEvents)
      ensures r.Launched? ==>
                var n, e0 := |outputTypes|, |old(memOutEvents)|;
                |memOutEvents| >= e0 + n &&
                driver.created == old(driver.created) + [Creation(LaunchCall(), r.kernelEvent)] +
                                  Made(ReadCalls(n, r.kernelEvent), memOutEvents[e0..e0 + n]) +
                                  [Creation(MarkerCall(apple, facade.queue, memOutEvents[..e0 + n]), r.marker)]
      ensures r.Launched? ==>
                var n, e0, t0 := |outputTypes|, |old(memOutEvents)|, |old(driver.log)|;
                |memOutEvents| == e0 + n + 2 && memOutEvents[..e0] == old(memOutEvents) &&
                memOutEvents[e0 + n] == r.kernelEvent && memOutEvents[e0 + n + 1] == r.marker &&
                resultBuffers == ResizedUpTo(old(resultBuffers), n) &&
                |driver.log| == t0 + n + 4 &&
                driver.log[..t0 + n + 3] ==
                  old(driver.log) + [Entry(LaunchCall(), CL_SUCCESS)] + ReadsLog(n, r.kernelEvent) +
                  [Entry(MarkerCall(apple, facade.queue, memOutEvents[..e0 + n]), CL_SUCCESS),
                   Entry(SetEventCallback(r.marker), CL_SUCCESS)] &&
                driver.log[t0 + n + 3].call == Flush(facade.queue)
    {
      refs := refs + 1;
      var err, kernelEvent := driver.Create(LaunchCall());
      if err != CL_SUCCESS {
        var _ := driver.Invoke(ReleaseEvent(kernelEvent));
        refs := refs - 1;
        return LaunchFailed(err);
      }
      ghost var launched := driver.log;
      r := ReadThenRegister(driver, apple, kernelEvent);
      assert driver.log[..|old(driver.log)|] == launched[..|old(driver.log)|] == old(driver.log);
      assert driver.log[|old(driver.log)|] == launched[|old(driver.log)|];
    }

    /**
     * The completion callback: `handle_results` sends the reply to the
     * stored receiver with the stored id, then the callback's reference is
     * given back. `results` is what the reads left in the containers.
     */
    method OnComplete(results: seq<seq<int>>)
      requires pendingCallbacks >= 1 && refs >= 1
      requires |results| == |resultBuffers| == |outputTypes|
      requires forall i :: 0 <= i < |results| ==> |results[i]| == |resultBuffers[i]|
      modifies this`resultBuffers, this`refs, this`pendingCallbacks, this`outbox
      ensures resultBuffers == results
      ensures outbox == old(outbox) + [Reply(handle.receiver, facade.address, handle.mid, ReplyContent(results))]
      ensures refs == old(refs) - 1 && pendingCallbacks == old(pendingCallbacks) - 1
    {
      resultBuffers := results;
      var reply := ReplyContent(resultBuffers);
      outbox := outbox + [Reply(handle.receiver, facade.address, handle.mid, reply)];
      refs := refs - 1;
      pendingCallbacks := pendingCallbacks - 1;
    }

    /** `deref` by the creator of the command. */
    method Release()
      requires refs >= 1
      modifies this`refs
      ensures refs == old(refs) - 1
    {
      refs := refs - 1;
    }

    /**
     * `~command`, run when the last reference is gone: releases the input
     * events, then the output events, each through a throwing call; the
     * first failure ends the walk.
     */
    method Destroy(driver: Driver) returns (failure: Option<ClInt>)
      requires refs == 0
      modifies driver
      ensures |driver.log| >= |old(driver.log)| && driver.log[..|old(driver.log)|] == old(driver.log)
      ensures var added, all := driver.log[|old(driver.log)|..], memInEvents + memOutEvents;
              && |added| <= |all|
              && (forall i :: 0 <= i < |added| ==> added[i].call == ReleaseEvent(all[i]))
              && (failure.None? <==> |added| == |all| && AllSucceeded(added))
              && (failure.Some? ==> |added| > 0 && AllSucceeded(added[..|added| - 1]) &&
                                    failure.value == added[|added| - 1].status != CL_SUCCESS)
    {
      ghost var t0 := |driver.log|;
      var all := memInEvents + memOutEvents;
      var i := 0;
      while i < |all|
        invariant 0 <= i <= |all|
        invariant |driver.log| == t0 + i && driver.log[..t0] == old(driver.log)
        invariant forall j :: t0 <= j < t0 + i ==> driver.log[j] == Entry(ReleaseEvent(all[j - t0]), CL_SUCCESS)
      {
        var err := driver.Invoke(ReleaseEvent(all[i]));
        if err != CL_SUCCESS {
          assert driver.log[t0..][..i] == driver.log[t0..t0 + i];
          return Some(err);
        }
        i := i + 1;
      }
      failure := None;
    }
  }

  /**
   * One request from creation to destruction: the creator's reference, the
   * enqueue, the callback when one was registered, the creator's release.
   * Afterwards no reference is left and exactly one reply was delivered
   * exactly when the kernel was launched.
   */
  method Lifecycle(driver: Driver, handle: ReplyTo, facade: FacadeView, events: seq<Handle>,
                   inputBuffers: seq<Handle>, outputBuffers: seq<Handle>, resultSizes: seq<SizeT>, msg: Message,
                   outputTypes: seq<CType>, elementSize: CType -> nat, apple: bool, results: seq<seq<int>>)
    returns (cmd: Command, outcome: EnqueueOutcome)
    requires |outputTypes| <= |outputBuffers| && |outputTypes| <= |resultSizes|
    requires |results| == |outputTypes| && forall i :: 0 <= i < |results| ==> |results[i]| == resultSizes[i]
    modifies driver
    ensures cmd.handle == handle && cmd.facade == facade && cmd.outputTypes == outputTypes
    ensures cmd.refs == 0 && cmd.pendingCallbacks == 0
    ensures outcome.Launched? ==>
              cmd.outbox == [Reply(handle.receiver, facade.address, handle.mid, cmd.ReplyContent(results))]
    ensures !outcome.Launched? ==> cmd.outbox == []
  {
    cmd := new Command(handle, facade, events, inputBuffers, outputBuffers, resultSizes, msg, outputTypes,
                       elementSize);
    outcome := cmd.Enqueue(driver, apple);
    if outcome.Launched? {
      cmd.OnComplete(results);
    }
    cmd.Release();
  }
}
