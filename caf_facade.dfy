// The actor facade of the caf bridge: `create` checks the spawn geometry
// and creates the kernel; the constructor fixes the default output size;
// `enqueue` filters a message, plans one device buffer per argument
// descriptor, binds the buffers to the kernel and hands everything to a
// command. Driver calls go through the `Driver` oracle; a call that the
// source makes through `v1get`/`v2get`/`v1callcl` throws on failure, which
// here ends the operation with `Thrown`.
module CafFacade {
  import opened Types
  import opened Driver
  import opened Arguments
  import opened SpawnConfig

  /** Why planning stopped: the driver failed, or an `out` calculator did not accept the message. */
  datatype Failure = DriverError(status: ClInt) | CalculatorRejected

  /** What `enqueue` passes on to the command it creates. */
  datatype Dispatch = Dispatch(handle: ResponsePromise, events: seq<Handle>, arguments: seq<Handle>,
                               resultSizes: seq<nat>, content: Message)

  datatype EnqueueOutcome = Dropped | Thrown(failure: Failure) | Dispatched(dispatch: Dispatch)

  /** The memory flags each `create_buffer` overload passes to `clCreateBuffer`. */
  function BufferFlags(d: Descriptor): MemFlags {
    match d
    case In(_) => ReadOnly
    case InOut(_) => ReadWrite
    case Out(_, _) => ReadOnly
  }

  /**
   * `get_size_for_argument`: a wrapper without calculator selects the
   * `dummy_size_calculator` overload and gets the default size; otherwise
   * the calculator is applied to the message.
   */
  function GetSizeForArgument(d: Descriptor, msg: Message, defaultSize: SizeT): (r: Option<SizeT>)
    requires d.Out?
    ensures d.fun.None? ==> r == Some(defaultSize)
    ensures d.fun.Some? ==> r == OutSize(d, msg) == d.fun.value(msg)
    ensures r.None? <==> d.fun.Some? && d.fun.value(msg).None?
  {
    match d.fun
    case None => Some(defaultSize)
    case Some(f) => f(msg)
  }

  /**
   * The sizes pushed while planning `ds`: one per `out`, in declared order;
   * None when some calculator does not accept the message.
   */
  function SizesOf(ds: seq<Descriptor>, msg: Message, defaultSize: SizeT): Option<seq<nat>> {
    if ds == [] then Some([])
    else
      var init := SizesOf(ds[..|ds| - 1], msg, defaultSize);
      var d := ds[|ds| - 1];
      if init.None? then None
      else if !d.Out? then init
      else
        match GetSizeForArgument(d, msg, defaultSize)
        case None => None
        case Some(s) => Some(init.value + [s])
  }

  /** Only `out` descriptors contribute a size, each its own, in declared order. */
  lemma {:induction false} SizesOfSpec(ds: seq<Descriptor>, msg: Message, defaultSize: SizeT)
    ensures SizesOf(ds, msg, defaultSize).Some? <==>
              forall i :: 0 <= i < |ds| && ds[i].Out? ==> GetSizeForArgument(ds[i], msg, defaultSize).Some?
    ensures SizesOf(ds, msg, defaultSize).Some? ==>
              var sizes, pos := SizesOf(ds, msg, defaultSize).value, Positions(ds, RequiresSizeArg);
              |sizes| == |pos| &&
              forall k :: 0 <= k < |sizes| ==> Some(sizes[k]) == GetSizeForArgument(ds[pos[k]], msg, defaultSize)
  {
    if ds != [] {
      var init := ds[..|ds| - 1];
      SizesOfSpec(init, msg, defaultSize);
      assert forall i :: 0 <= i < |init| ==> init[i] == ds[i];
    }
  }

  /**
   * The message the facade works on: the input mapper's result when there is
   * a mapper, the message itself otherwise; and only if it holds exactly the
   * input types of the descriptors. None means the message is not consumed.
   */
  function AcceptedContent(mapArgs: Option<Message -> Option<Message>>, argumentTypes: seq<Descriptor>,
                           content: Message): (r: Option<Message>)
    ensures r.Some? ==> MatchElements(r.value, InputTypes(argumentTypes))
    ensures mapArgs.None? ==> (r.Some? <==> MatchElements(content, InputTypes(argumentTypes)))
    ensures mapArgs.None? && r.Some? ==> r.value == content
    ensures mapArgs.Some? ==>
              (r.Some? <==> mapArgs.value(content).Some? &&
                            MatchElements(mapArgs.value(content).value, InputTypes(argumentTypes)))
    ensures mapArgs.Some? && r.Some? ==> r == mapArgs.value(content)
  {
    var mapped := if mapArgs.Some? then mapArgs.value(content) else Some(content);
    if mapped.Some? && MatchElements(mapped.value, InputTypes(argumentTypes)) then mapped else None
  }

  /**
   * The descriptors `add_kernel_arguments` visits as written: it walks the
   * indices of the input types but looks each index up among all declared
   * descriptors.
   */
  function VisitedAsWritten(ds: seq<Descriptor>): seq<Descriptor>
    requires |InputTypes(ds)| <= |ds|
  {
    ds[..|InputTypes(ds)|]
  }

  /** For `in, out` as written only the `in` is planned: the `out` gets no buffer and no size. */
  lemma AsWrittenSkipsTrailingOut(t: CType, msg: Message, defaultSize: SizeT)
    ensures |InputTypes([In(t), Out(t, None)])| == 1
    ensures VisitedAsWritten([In(t), Out(t, None)]) == [In(t)]
    ensures SizesOf(VisitedAsWritten([In(t), Out(t, None)]), msg, defaultSize) == Some([])
    ensures SizesOf([In(t), Out(t, None)], msg, defaultSize) == Some([defaultSize])
  {
    var ds := [In(t), Out(t, None)];
    assert ds[..1] == [In(t)];
    assert Positions(ds[..1], IsInputArg) == [0];
    assert Positions(ds, IsInputArg) == [0];
    assert SizesOf([In(t)], msg, defaultSize) == Some([]) by {
      assert [In(t)][..0] == [];
    }
    SizesOfStep(ds, 1, msg, defaultSize, []);
    assert ds[..2] == ds;
    assert GetSizeForArgument(ds[1], msg, defaultSize).value == defaultSize;
    assert [] + [defaultSize] == [defaultSize];
  }

  /** One more descriptor planned: its size, if it is an `out`, joins the sizes. */
  lemma SizesOfStep(ds: seq<Descriptor>, i: nat, msg: Message, defaultSize: SizeT, sizes: seq<nat>)
    requires i < |ds| && SizesOf(ds[..i], msg, defaultSize) == Some(sizes)
    ensures ds[i].Out? && GetSizeForArgument(ds[i], msg, defaultSize).None? ==>
              SizesOf(ds[..i + 1], msg, defaultSize).None?
    ensures ds[i].Out? && GetSizeForArgument(ds[i], msg, defaultSize).Some? ==>
              SizesOf(ds[..i + 1], msg, defaultSize) == Some(sizes + [GetSizeForArgument(ds[i], msg, defaultSize).value])
    ensures !ds[i].Out? ==> SizesOf(ds[..i + 1], msg, defaultSize) == Some(sizes)
  {
    assert ds[..i + 1][..i] == ds[..i];
  }

  /** A prefix whose sizes are rejected makes the whole list rejected. */
  lemma {:induction false} SizesOfRejectedPrefix(ds: seq<Descriptor>, i: nat, msg: Message, defaultSize: SizeT)
    requires i <= |ds| && SizesOf(ds[..i], msg, defaultSize).None?
    ensures SizesOf(ds, msg, defaultSize).None?
    decreases |ds| - i
  {
    if i < |ds| {
      assert ds[..i + 1][..i] == ds[..i];
      SizesOfRejectedPrefix(ds, i + 1, msg, defaultSize);
    } else {
      assert ds[..i] == ds;
    }
  }

  /**
   * Planning pushes a size for each `out` only, while the command reads one
   * size per output, `in_out`s included: the sizes fall short by exactly the
   * number of `in_out` descriptors, so any `in_out` leaves them short.
   */
  lemma InOutLeavesSizesShort(ds: seq<Descriptor>, msg: Message, defaultSize: SizeT)
    requires SizesOf(ds, msg, defaultSize).Some?
    ensures |SizesOf(ds, msg, defaultSize).value| + CountIf(ds, IsInOut) == |OutputTypes(ds)|
    ensures |SizesOf(ds, msg, defaultSize).value| < |OutputTypes(ds)| <==> exists i :: 0 <= i < |ds| && ds[i].InOut?
  {
    SizesOfSpec(ds, msg, defaultSize);
    InputsAndSizedPartition(ds);
    CountIfPositive(ds, IsInOut);
  }

  lemma {:induction false} CountIfPrefix(ds: seq<Descriptor>, p: Descriptor -> bool, i: nat)
    requires i <= |ds|
    ensures CountIf(ds[..i], p) <= CountIf(ds, p)
    decreases |ds| - i
  {
    if i < |ds| {
      CountIfPrefix(ds, p, i + 1);
      assert ds[..i + 1][..i] == ds[..i];
    } else {
      assert ds[..i] == ds;
    }
  }

  lemma SplitLast(s: seq<Handle>)
    requires s != []
    ensures s[..|s| - 1] + [s[|s| - 1]] == s
  {
  }

  /** The two objects a `create_buffer` overload makes: the buffer, then the event of the write into it. */
  function WrittenBuffer(context: Handle, queue: Handle, d: Descriptor, bytes: SizeT, buffer: Handle,
                         event: Handle): seq<Creation> {
    [Creation(Call.CreateBuffer(context, BufferFlags(d), bytes), buffer),
     Creation(EnqueueWriteBuffer(queue, buffer, bytes), event)]
  }

  /** The one object an `out` makes in the walk over all descriptors: its buffer. */
  function AllocatedBuffer(context: Handle, d: Descriptor, bytes: SizeT, buffer: Handle): seq<Creation> {
    [Creation(Call.CreateBuffer(context, BufferFlags(d), bytes), buffer)]
  }

  /** The handles of the buffers among `cs`, in creation order. */
  function BufferHandles(cs: seq<Creation>): seq<Handle> {
    if cs == [] then []
    else BufferHandles(cs[..|cs| - 1]) + (if cs[|cs| - 1].call.CreateBuffer? then [cs[|cs| - 1].handle] else [])
  }

  /** The handles of the write events among `cs`, in creation order. */
  function WriteEvents(cs: seq<Creation>): seq<Handle> {
    if cs == [] then []
    else WriteEvents(cs[..|cs| - 1]) + (if cs[|cs| - 1].call.EnqueueWriteBuffer? then [cs[|cs| - 1].handle] else [])
  }

  /** Each step of a walk makes one buffer, and a written one also one write event. */
  lemma StepHandles(context: Handle, queue: Handle, d: Descriptor, bytes: SizeT, buffer: Handle, event: Handle)
    ensures BufferHandles(WrittenBuffer(context, queue, d, bytes, buffer, event)) == [buffer]
    ensures WriteEvents(WrittenBuffer(context, queue, d, bytes, buffer, event)) == [event]
    ensures BufferHandles(AllocatedBuffer(context, d, bytes, buffer)) == [buffer]
    ensures WriteEvents(AllocatedBuffer(context, d, bytes, buffer)) == []
  {
    var w := WrittenBuffer(context, queue, d, bytes, buffer, event);
    assert w[..1] == [w[0]] && w[..1][..0] == [];
    assert w[|w| - 1].call.EnqueueWriteBuffer? && !w[|w| - 1].call.CreateBuffer?;
    assert BufferHandles(w[..1]) == [buffer] && WriteEvents(w[..1]) == [];
    assert BufferHandles(w) == BufferHandles(w[..1]);
    var a := AllocatedBuffer(context, d, bytes, buffer);
    assert a[..0] == [];
  }

  lemma {:induction false} HandlesAppend(a: seq<Creation>, b: seq<Creation>)
    ensures BufferHandles(a + b) == BufferHandles(a) + BufferHandles(b)
    ensures WriteEvents(a + b) == WriteEvents(a) + WriteEvents(b)
    decreases |b|
  {
    if b == [] {
      assert a + b == a;
    } else {
      assert (a + b)[..|a + b| - 1] == a + b[..|b| - 1];
      HandlesAppend(a, b[..|b| - 1]);
    }
  }

  class ActorFacade {
    const address: ActorId
    const kernel: Handle
    const program: Handle
    const context: Handle
    const queue: Handle
    const config: SpawnConfig
    const mapArgs: Option<Message -> Option<Message>>
    const mapResult: Option<seq<Value> -> Message>
    const argumentTypes: seq<Descriptor>
    /** `sizeof(T)` for the type `T` a wrapper is declared with. */
    const sizeOf: CType -> nat
    const defaultOutputSize: SizeT

    /** The private constructor: keeps its arguments and folds the dimensions into the default output size. */
    constructor (address: ActorId, prog: Program, kernel: Handle, config: SpawnConfig,
                 mapArgs: Option<Message -> Option<Message>>, mapResult: Option<seq<Value> -> Message>,
                 argumentTypes: seq<Descriptor>, sizeOf: CType -> nat)
      ensures this.address == address && this.kernel == kernel && this.config == config
      ensures program == prog.program && context == prog.context && queue == prog.queue
      ensures this.mapArgs == mapArgs && this.mapResult == mapResult
      ensures this.argumentTypes == argumentTypes && this.sizeOf == sizeOf
      ensures defaultOutputSize == WorkItems(config.dimensions) % SizeTModulus
    {
      this.address, this.kernel, this.config := address, kernel, config;
      this.program, this.context, this.queue := prog.program, prog.context, prog.queue;
      this.mapArgs, this.mapResult := mapArgs, mapResult;
      this.argumentTypes, this.sizeOf := argumentTypes, sizeOf;
      defaultOutputSize := DefaultOutputSize(config.dimensions);
      DefaultOutputSizeIsWorkItems(config.dimensions);
    }

    /**
     * `create`: rejects a bad geometry before touching the driver, then
     * creates the kernel (throwing if the driver fails) and the facade.
     */
    static method Create(driver: Driver, address: ActorId, prog: Program, kernelName: string,
                         config: SpawnConfig, mapArgs: Option<Message -> Option<Message>>,
                         mapResult: Option<seq<Value> -> Message>, argumentTypes: seq<Descriptor>,
                         sizeOf: CType -> nat)
      returns (r: Result<ActorFacade, SpawnError>)
      modifies driver
      ensures ValidateConfig(config).Some? ==>
                r == Err(InvalidConfig(ValidateConfig(config).value)) && driver.log == old(driver.log)
      ensures ValidateConfig(config).None? ==>
                |driver.log| == |old(driver.log)| + 1 &&
                driver.log[..|old(driver.log)|] == old(driver.log) &&
                driver.log[|old(driver.log)|].call == CreateKernel(prog.program, kernelName) &&
                (r.Ok? <==> driver.log[|old(driver.log)|].status == CL_SUCCESS) &&
                (r.Err? ==> r.error == KernelError(driver.log[|old(driver.log)|].status))
      ensures r.Ok? ==> fresh(r.value) && r.value.config == config && r.value.argumentTypes == argumentTypes &&
                        r.value.kernel == old(driver.next) && r.value.queue == prog.queue &&
                        r.value.mapArgs == mapArgs && r.value.mapResult == mapResult && r.value.sizeOf == sizeOf &&
                        r.value.defaultOutputSize == WorkItems(config.dimensions) % SizeTModulus
    {
      var invalid := ValidateConfig(config);
      if invalid.Some? {
        return Err(InvalidConfig(invalid.value));
      }
      var err, kernel := driver.Create(CreateKernel(prog.program, kernelName));
      if err != CL_SUCCESS {
        return Err(KernelError(err));
      }
      var facade := new ActorFacade(address, prog, kernel, config, mapArgs, mapResult, argumentTypes, sizeOf);
      r := Ok(facade);
    }

    /** Bytes `create_buffer` allocates: element count times `sizeof(T)` for inputs, the size itself for `out`. */
    function BufferBytes(d: Descriptor, value: Value, msg: Message): Option<SizeT> {
      if d.Out? then GetSizeForArgument(d, msg, defaultOutputSize)
      else Some(ByteSize(sizeOf(d.arg), |value.elems|))
    }

    /**
     * The objects `add_kernel_arguments` as written makes for the first
     * `|arguments|` descriptors: descriptor i written from message element i
     * into buffer `arguments[i]`, with write event `events[i]`.
     */
    function AsWrittenCreations(msg: Message, arguments: seq<Handle>, events: seq<Handle>): seq<Creation>
      requires |arguments| == |events| <= |argumentTypes| && |arguments| <= |msg|
    {
      if arguments == [] then []
      else
        var i := |arguments| - 1;
        var d := argumentTypes[i];
        AsWrittenCreations(msg, arguments[..i], events[..i])
          + WrittenBuffer(context, queue, d, BufferBytes(d, msg[i], msg).GetOr(0), arguments[i], events[i])
    }

    /**
     * The objects the walk over the descriptors `ds` makes: an `in` or
     * `in_out` is written from the next message element into its buffer and
     * gives the next write event; an `out` only gets its buffer.
     */
    function PlannedCreations(ds: seq<Descriptor>, msg: Message, arguments: seq<Handle>, events: seq<Handle>)
      : seq<Creation>
      requires |arguments| == |ds| && |events| == CountIf(ds, IsInputArg) <= |msg|
    {
      if ds == [] then []
      else
        var i, d := |ds| - 1, ds[|ds| - 1];
        var j := if IsInputArg(d) then |events| - 1 else |events|;
        PlannedCreations(ds[..i], msg, arguments[..i], events[..j])
          + StepCreations(d, msg, j, arguments[i], if IsInputArg(d) then events[j] else 0)
    }

    /**
     * What the walk makes for descriptor `d`: an `in` or `in_out` is written
     * from message element `j`, an `out` is only allocated.
     */
    function StepCreations(d: Descriptor, msg: Message, j: nat, buffer: Handle, event: Handle): seq<Creation>
      requires IsInputArg(d) ==> j < |msg|
    {
      if IsInputArg(d) then WrittenBuffer(context, queue, d, BufferBytes(d, msg[j], msg).GetOr(0), buffer, event)
      else AllocatedBuffer(context, d, GetSizeForArgument(d, msg, defaultOutputSize).GetOr(0), buffer)
    }

    /** The objects the walk over all descriptors makes. */
    function Planned(msg: Message, arguments: seq<Handle>, events: seq<Handle>): seq<Creation>
      requires |arguments| == |argumentTypes| && |events| == |InputTypes(argumentTypes)| <= |msg|
    {
      PositionsCount(argumentTypes, IsInputArg);
      PlannedCreations(argumentTypes, msg, arguments, events)
    }

    /**
     * In the walk over all descriptors the buffers, in creation order, are
     * the arguments bound to the kernel, and the write events are the
     * events handed to the command.
     */
    lemma PlannedHandles(msg: Message, arguments: seq<Handle>, events: seq<Handle>)
      requires |arguments| == |argumentTypes| && |events| == |InputTypes(argumentTypes)| <= |msg|
      ensures BufferHandles(Planned(msg, arguments, events)) == arguments
      ensures WriteEvents(Planned(msg, arguments, events)) == events
    {
      PositionsCount(argumentTypes, IsInputArg);
      PlannedBuffers(argumentTypes, msg, arguments, events);
      PlannedWriteEvents(argumentTypes, msg, arguments, events);
    }

    lemma {:induction false} PlannedBuffers(ds: seq<Descriptor>, msg: Message, arguments: seq<Handle>,
                                            events: seq<Handle>)
      requires |arguments| == |ds| && |events| == CountIf(ds, IsInputArg) <= |msg|
      ensures BufferHandles(PlannedCreations(ds, msg, arguments, events)) == arguments
    {
      if ds != [] {
        var i, d := |ds| - 1, ds[|ds| - 1];
        var j := if IsInputArg(d) then |events| - 1 else |events|;
        var event := if IsInputArg(d) then events[j] else 0;
        PlannedUnfold(ds, msg, arguments, events);
        var prefix := PlannedCreations(ds[..i], msg, arguments[..i], events[..j]);
        var step := StepCreations(d, msg, j, arguments[i], event);
        PlannedBuffers(ds[..i], msg, arguments[..i], events[..j]);
        StepCreationsHandles(d, msg, j, arguments[i], event);
        HandlesAppend(prefix, step);
        assert BufferHandles(prefix + step) == arguments[..i] + [arguments[i]];
        SplitLast(arguments);
      }
    }

    lemma {:induction false} PlannedWriteEvents(ds: seq<Descriptor>, msg: Message, arguments: seq<Handle>,
                                                events: seq<Handle>)
      requires |arguments| == |ds| && |events| == CountIf(ds, IsInputArg) <= |msg|
      ensures WriteEvents(PlannedCreations(ds, msg, arguments, events)) == events
    {
      if ds != [] {
        var i, d := |ds| - 1, ds[|ds| - 1];
        var j := if IsInputArg(d) then |events| - 1 else |events|;
        var event := if IsInputArg(d) then events[j] else 0;
        PlannedUnfold(ds, msg, arguments, events);
        var prefix := PlannedCreations(ds[..i], msg, arguments[..i], events[..j]);
        var step := StepCreations(d, msg, j, arguments[i], event);
        PlannedWriteEvents(ds[..i], msg, arguments[..i], events[..j]);
        StepCreationsHandles(d, msg, j, arguments[i], event);
        HandlesAppend(prefix, step);
        if IsInputArg(d) {
          assert WriteEvents(prefix + step) == events[..j] + [events[j]];
          SplitLast(events);
        } else {
          assert WriteEvents(prefix + step) == events[..j];
          assert events[..j] == events;
        }
      }
    }

    /** The walk over `ds` is the walk over all but the last descriptor, then the last one's step. */
    lemma PlannedUnfold(ds: seq<Descriptor>, msg: Message, arguments: seq<Handle>, events: seq<Handle>)
      requires ds != [] && |arguments| == |ds| && |events| == CountIf(ds, IsInputArg) <= |msg|
      ensures var i, d := |ds| - 1, ds[|ds| - 1];
              var j := if IsInputArg(d) then |events| - 1 else |events|;
              && 0 <= j <= |events| && (IsInputArg(d) ==> j < |events|)
              && |events[..j]| == CountIf(ds[..i], IsInputArg)
              && PlannedCreations(ds, msg, arguments, events) ==
                 PlannedCreations(ds[..i], msg, arguments[..i], events[..j])
                   + StepCreations(d, msg, j, arguments[i], if IsInputArg(d) then events[j] else 0)
    {
    }

    /** Each step makes one buffer, and an `in` or `in_out` also one write event. */
    lemma StepCreationsHandles(d: Descriptor, msg: Message, j: nat, buffer: Handle, event: Handle)
      requires IsInputArg(d) ==> j < |msg|
      ensures BufferHandles(StepCreations(d, msg, j, buffer, event)) == [buffer]
      ensures WriteEvents(StepCreations(d, msg, j, buffer, event)) == if IsInputArg(d) then [event] else []
    {
      if IsInputArg(d) {
        StepHandles(context, queue, d, BufferBytes(d, msg[j], msg).GetOr(0), buffer, event);
      } else {
        StepHandles(context, queue, d, GetSizeForArgument(d, msg, defaultOutputSize).GetOr(0), buffer, event);
      }
    }

    /**
     * The three `create_buffer` overloads: allocate a buffer for `d`, write
     * `value` into it, and push the write event, the buffer and (for `out`)
     * the size. The vectors are left untouched when a step throws.
     */
    method CreateBuffer(driver: Driver, d: Descriptor, value: Value, events: seq<Handle>, sizes: seq<nat>,
                        arguments: seq<Handle>, msg: Message)
      returns (failure: Option<Failure>, events': seq<Handle>, sizes': seq<nat>, arguments': seq<Handle>)
      modifies driver
      ensures failure.None? <==> BufferBytes(d, value, msg).Some? &&
                                  |driver.log| == |old(driver.log)| + 2 &&
                                  driver.log[|old(driver.log)|].status == CL_SUCCESS &&
                                  driver.log[|old(driver.log)| + 1].status == CL_SUCCESS
      ensures failure.None? ==>
                var bytes, t0 := BufferBytes(d, value, msg).value, |old(driver.log)|;
                |events'| == |events| + 1 && events'[..|events|] == events &&
                |arguments'| == |arguments| + 1 && arguments'[..|arguments|] == arguments &&
                (d.Out? ==> sizes' == sizes + [bytes]) && (!d.Out? ==> sizes' == sizes) &&
                driver.log[..t0] == old(driver.log) &&
                driver.log[t0].call == Call.CreateBuffer(context, BufferFlags(d), bytes) &&
                driver.log[t0 + 1].call == EnqueueWriteBuffer(queue, arguments'[|arguments|], bytes)
      ensures failure.None? ==>
                driver.created == old(driver.created) +
                  WrittenBuffer(context, queue, d, BufferBytes(d, value, msg).value, arguments'[|arguments|], events'[|events|])
      ensures failure.Some? ==> events' == events && sizes' == sizes && arguments' == arguments
      ensures failure == Some(CalculatorRejected) <==> BufferBytes(d, value, msg).None?
      ensures failure == Some(CalculatorRejected) ==> driver.log == old(driver.log)
      ensures failure.Some? && failure.value.DriverError? ==>
                |driver.log| > |old(driver.log)| &&
                driver.log[|driver.log| - 1].status == failure.value.status != CL_SUCCESS
      ensures |driver.log| >= |old(driver.log)| && driver.log[..|old(driver.log)|] == old(driver.log)
    {
      events', sizes', arguments' := events, sizes, arguments;
      var bytes := BufferBytes(d, value, msg);
      if bytes.None? {
        return Some(CalculatorRejected), events', sizes', arguments';
      }
      var err, buffer := driver.Create(Call.CreateBuffer(context, BufferFlags(d), bytes.value));
      if err != CL_SUCCESS {
        return Some(DriverError(err)), events', sizes', arguments';
      }
      var event;
      err, event := driver.Create(EnqueueWriteBuffer(queue, buffer, bytes.value));
      if err != CL_SUCCESS {
        return Some(DriverError(err)), events', sizes', arguments';
      }
      events' := events + [event];
      arguments' := arguments + [buffer];
      if d.Out? {
        sizes' := sizes + [bytes.value];
      }
      failure := None;
    }

    /**
     * An `out` buffer as the planning walk over all descriptors needs it:
     * allocated with its size, with no host data to write.
     */
    method CreateOutputBuffer(driver: Driver, d: Descriptor, sizes: seq<nat>, arguments: seq<Handle>, msg: Message)
      returns (failure: Option<Failure>, sizes': seq<nat>, arguments': seq<Handle>)
      requires d.Out?
      modifies driver
      ensures failure.None? ==> GetSizeForArgument(d, msg, defaultOutputSize).Some?
      ensures failure.None? ==>
                var size, t0 := GetSizeForArgument(d, msg, defaultOutputSize).value, |old(driver.log)|;
                |arguments'| == |arguments| + 1 && arguments'[..|arguments|] == arguments &&
                sizes' == sizes + [size] &&
                |driver.log| == t0 + 1 && driver.log[..t0] == old(driver.log) &&
                driver.log[t0] == Entry(Call.CreateBuffer(context, BufferFlags(d), size), CL_SUCCESS) &&
                driver.created == old(driver.created) + AllocatedBuffer(context, d, size, arguments'[|arguments|])
      ensures failure.Some? ==> sizes' == sizes && arguments' == arguments
      ensures failure == Some(CalculatorRejected) <==> GetSizeForArgument(d, msg, defaultOutputSize).None?
      ensures failure.Some? && failure.value.DriverError? ==>
                |driver.log| > |old(driver.log)| &&
                driver.log[|driver.log| - 1].status == failure.value.status != CL_SUCCESS
      ensures |driver.log| >= |old(driver.log)| && driver.log[..|old(driver.log)|] == old(driver.log)
    {
      sizes', arguments' := sizes, arguments;
      var size := GetSizeForArgument(d, msg, defaultOutputSize);
      if size.None? {
        return Some(CalculatorRejected), sizes', arguments';
      }
      var err, buffer := driver.Create(Call.CreateBuffer(context, BufferFlags(d), size.value));
      if err != CL_SUCCESS {
        return Some(DriverError(err)), sizes', arguments';
      }
      sizes' := sizes + [size.value];
      arguments' := arguments + [buffer];
      failure := None;
    }

    /**
     * The end of the `add_kernel_arguments` recursion: bind every buffer to
     * the kernel at its own index (throwing on the first failure), then flush
     * the queue, whose status is not checked.
     */
    method BindKernelArguments(driver: Driver, arguments: seq<Handle>) returns (failure: Option<Failure>)
      modifies driver
      ensures |driver.log| >= |old(driver.log)| && driver.log[..|old(driver.log)|] == old(driver.log)
      ensures driver.created == old(driver.created)
      ensures failure.None? ==> |driver.log| == |old(driver.log)| + |arguments| + 1
      ensures failure.None? ==> Calls(driver.log[|old(driver.log)|..]) == Bindings(kernel, arguments) + [Flush(queue)]
      ensures failure.None? ==> forall i :: old(|driver.log|) <= i < |driver.log| - 1 ==> driver.log[i].status == CL_SUCCESS
      ensures failure.Some? ==>
                var added := driver.log[|old(driver.log)|..];
                0 < |added| <= |arguments| && Calls(added) == Bindings(kernel, arguments)[..|added|] &&
                failure == Some(DriverError(added[|added| - 1].status)) && added[|added| - 1].status != CL_SUCCESS
    {
      ghost var t0 := |driver.log|;
      var i := 0;
      while i < |arguments|
        invariant 0 <= i <= |arguments|
        invariant |driver.log| == t0 + i && driver.log[..t0] == old(driver.log)
        invariant Calls(driver.log[t0..]) == Bindings(kernel, arguments)[..i]
        invariant forall j :: t0 <= j < t0 + i ==> driver.log[j].status == CL_SUCCESS
        invariant driver.created == old(driver.created)
      {
        ghost var before := driver.log;
        var err := driver.Invoke(SetKernelArg(kernel, i, arguments[i]));
        assert driver.log[t0..] == before[t0..] + [Entry(SetKernelArg(kernel, i, arguments[i]), err)];
        CallsAppend(before[t0..], [Entry(SetKernelArg(kernel, i, arguments[i]), err)]);
        assert Bindings(kernel, arguments)[..i + 1] == Bindings(kernel, arguments)[..i] + [SetKernelArg(kernel, i, arguments[i])];
        if err != CL_SUCCESS {
          return Some(DriverError(err));
        }
        i := i + 1;
      }
      ghost var before := driver.log;
      var _ := driver.Invoke(Flush(queue));
      assert driver.log[t0..] == before[t0..] + [driver.log[|driver.log| - 1]];
      CallsAppend(before[t0..], [driver.log[|driver.log| - 1]]);
      assert Bindings(kernel, arguments)[..i] == Bindings(kernel, arguments);
      failure := None;
    }

    /** One step of `add_kernel_arguments` as written: descriptor `i` with message element `i`. */
    method VisitDescriptor(driver: Driver, msg: Message, i: nat, events: seq<Handle>, sizes: seq<nat>,
                           arguments: seq<Handle>, ghost base: seq<Creation>)
      returns (failure: Option<Failure>, events': seq<Handle>, sizes': seq<nat>, arguments': seq<Handle>)
      requires i < |argumentTypes| && i < |msg| && |events| == |arguments| == i
      requires SizesOf(argumentTypes[..i], msg, defaultOutputSize) == Some(sizes)
      requires driver.created == base + AsWrittenCreations(msg, arguments, events)
      modifies driver
      ensures failure.None? ==>
                |events'| == |arguments'| == i + 1 &&
                driver.created == base + AsWrittenCreations(msg, arguments', events') &&
                SizesOf(argumentTypes[..i + 1], msg, defaultOutputSize) == Some(sizes')
    {
      var d := argumentTypes[i];
      SizesOfStep(argumentTypes, i, msg, defaultOutputSize, sizes);
      failure, events', sizes', arguments' := CreateBuffer(driver, d, msg[i], events, sizes, arguments, msg);
      if failure.None? {
        assert d.Out? ==> BufferBytes(d, msg[i], msg) == GetSizeForArgument(d, msg, defaultOutputSize);
        assert arguments'[..i] == arguments && events'[..i] == events;
      }
    }

    /**
     * `add_kernel_arguments` as written: one `create_buffer` per index of the
     * input types, each pairing the descriptor declared at that index with the
     * message element at that index; then the bindings and the flush.
     */
    method AddKernelArguments(driver: Driver, msg: Message)
      returns (failure: Option<Failure>, events: seq<Handle>, arguments: seq<Handle>, sizes: seq<nat>)
      requires MatchElements(msg, InputTypes(argumentTypes))
      modifies driver
      ensures |InputTypes(argumentTypes)| <= |argumentTypes|
      ensures failure.None? ==> |events| == |arguments| == |InputTypes(argumentTypes)|
      ensures failure.None? ==> driver.created == old(driver.created) + AsWrittenCreations(msg, arguments, events)
      ensures failure.None? ==> SizesOf(VisitedAsWritten(argumentTypes), msg, defaultOutputSize) == Some(sizes)
      ensures failure.None? ==>
                |driver.log| >= |arguments| + 1 &&
                Calls(driver.log[|driver.log| - |arguments| - 1..]) == Bindings(kernel, arguments) + [Flush(queue)]
    {
      var n := |InputTypes(argumentTypes)|;
      events, arguments, sizes := [], [], [];
      var i := 0;
      while i < n
        invariant 0 <= i <= n <= |argumentTypes|
        invariant |events| == |arguments| == i
        invariant driver.created == old(driver.created) + AsWrittenCreations(msg, arguments, events)
        invariant SizesOf(argumentTypes[..i], msg, defaultOutputSize) == Some(sizes)
      {
        failure, events, sizes, arguments := VisitDescriptor(driver, msg, i, events, sizes, arguments, old(driver.created));
        if failure.Some? {
          return;
        }
        i := i + 1;
      }
      ghost var t0 := |driver.log|;
      failure := BindKernelArguments(driver, arguments);
      if failure.None? {
        assert driver.log[|driver.log| - |arguments| - 1..] == driver.log[t0..];
      }
    }

    /**
     * One step of the planning walk: descriptor `i`, whose message element
     * (for `in` and `in_out`) is element `j`.
     */
    method PlanDescriptor(driver: Driver, msg: Message, i: nat, j: nat, events: seq<Handle>, sizes: seq<nat>,
                          arguments: seq<Handle>, ghost base: seq<Creation>)
      returns (failure: Option<Failure>, events': seq<Handle>, sizes': seq<nat>, arguments': seq<Handle>)
      requires i < |argumentTypes| && SizesOf(argumentTypes[..i], msg, defaultOutputSize) == Some(sizes)
      requires |arguments| == i && |events| == j == CountIf(argumentTypes[..i], IsInputArg)
      requires j + (if IsInputArg(argumentTypes[i]) then 1 else 0) <= |msg|
      requires driver.created == base + PlannedCreations(argumentTypes[..i], msg, arguments, events)
      modifies driver
      ensures CountIf(argumentTypes[..i + 1], IsInputArg) == j + (if IsInputArg(argumentTypes[i]) then 1 else 0)
      ensures failure.None? ==>
                SizesOf(argumentTypes[..i + 1], msg, defaultOutputSize) == Some(sizes') &&
                |arguments'| == |arguments| + 1 &&
                |events'| == CountIf(argumentTypes[..i + 1], IsInputArg) &&
                driver.created == base + PlannedCreations(argumentTypes[..i + 1], msg, arguments', events')
      ensures failure == Some(CalculatorRejected) ==> SizesOf(argumentTypes[..i + 1], msg, defaultOutputSize).None?
    {
      var d := argumentTypes[i];
      SizesOfStep(argumentTypes, i, msg, defaultOutputSize, sizes);
      assert argumentTypes[..i + 1][..i] == argumentTypes[..i];
      if IsInputArg(d) {
        failure, events', sizes', arguments' := CreateBuffer(driver, d, msg[j], events, sizes, arguments, msg);
      } else {
        events' := events;
        failure, sizes', arguments' := CreateOutputBuffer(driver, d, sizes, arguments, msg);
      }
      if failure.None? {
        assert arguments'[..i] == arguments && events'[..j] == events;
      }
    }

    /**
     * The buffers of the planning walk over all descriptors, in declared
     * order; `in` and `in_out` take the next message element.
     */
    method PlanBuffers(driver: Driver, msg: Message)
      returns (failure: Option<Failure>, events: seq<Handle>, arguments: seq<Handle>, sizes: seq<nat>)
      requires MatchElements(msg, InputTypes(argumentTypes))
      modifies driver
      ensures failure.None? ==> |arguments| == |argumentTypes| && |events| == |InputTypes(argumentTypes)|
      ensures failure.None? ==> driver.created == old(driver.created) + Planned(msg, arguments, events)
      ensures failure.None? ==> SizesOf(argumentTypes, msg, defaultOutputSize) == Some(sizes)
      ensures failure == Some(CalculatorRejected) ==> SizesOf(argumentTypes, msg, defaultOutputSize).None?
    {
      var ds := argumentTypes;
      PositionsCount(ds, IsInputArg);
      events, arguments, sizes := [], [], [];
      var i, j := 0, 0;
      while i < |ds|
        invariant 0 <= i <= |ds|
        invariant j == CountIf(ds[..i], IsInputArg) && j <= |msg|
        invariant |events| == j && |arguments| == i
        invariant driver.created == old(driver.created) + PlannedCreations(ds[..i], msg, arguments, events)
        invariant SizesOf(ds[..i], msg, defaultOutputSize) == Some(sizes)
      {
        assert ds[..i + 1][..i] == ds[..i];
        CountIfPrefix(ds, IsInputArg, i + 1);
        failure, events, sizes, arguments :=
          PlanDescriptor(driver, msg, i, j, events, sizes, arguments, old(driver.created));
        if failure.Some? {
          if failure == Some(CalculatorRejected) {
            SizesOfRejectedPrefix(ds, i + 1, msg, defaultOutputSize);
          }
          return;
        }
        if IsInputArg(ds[i]) {
          j := j + 1;
        }
        i := i + 1;
      }
      assert ds[..i] == ds;
      failure := None;
    }

    /**
     * Planning that gives every declared descriptor its buffer: walks all
     * descriptors in declared order; `in` and `in_out` take the next message
     * element and write it, `out` only allocates; then the bindings and the
     * flush.
     */
    method PlanArguments(driver: Driver, msg: Message)
      returns (failure: Option<Failure>, events: seq<Handle>, arguments: seq<Handle>, sizes: seq<nat>)
      requires MatchElements(msg, InputTypes(argumentTypes))
      modifies driver
      ensures failure.None? ==> |arguments| == |argumentTypes| && |events| == |InputTypes(argumentTypes)|
      ensures failure.None? ==> SizesOf(argumentTypes, msg, defaultOutputSize) == Some(sizes)
      ensures failure.None? ==> driver.created == old(driver.created) + Planned(msg, arguments, events)
      ensures failure.None? ==>
                BufferHandles(Planned(msg, arguments, events)) == arguments &&
                WriteEvents(Planned(msg, arguments, events)) == events
      ensures failure.None? ==>
                |driver.log| >= |arguments| + 1 &&
                Calls(driver.log[|driver.log| - |arguments| - 1..]) == Bindings(kernel, arguments) + [Flush(queue)]
      ensures failure == Some(CalculatorRejected) ==> SizesOf(argumentTypes, msg, defaultOutputSize).None?
    {
      failure, events, arguments, sizes := PlanBuffers(driver, msg);
      if failure.Some? {
        return;
      }
      PlannedHandles(msg, arguments, events);
      ghost var t0 := |driver.log|;
      failure := BindKernelArguments(driver, arguments);
      if failure.None? {
        assert |driver.log| - |arguments| - 1 == t0;
      }
    }

    /**
     * `enqueue`: a message the input mapper rejects or whose types do not
     * match is dropped without touching the driver; otherwise the buffers are
     * planned and bound, and the command data is handed on.
     */
    method Enqueue(driver: Driver, sender: ActorId, mid: MessageId, content: Message) returns (r: EnqueueOutcome)
      modifies driver
      ensures r.Dropped? <==> AcceptedContent(mapArgs, argumentTypes, content).None?
      ensures r.Dropped? ==> driver.log == old(driver.log)
      ensures r.Dispatched? ==>
                var msg, d := AcceptedContent(mapArgs, argumentTypes, content).value, r.dispatch;
                d.handle == ResponsePromise(address, sender, ResponseId(mid)) &&
                d.content == msg &&
                |d.arguments| == |argumentTypes| && |d.events| == |InputTypes(argumentTypes)| &&
                SizesOf(argumentTypes, msg, defaultOutputSize) == Some(d.resultSizes) &&
                driver.created == old(driver.created) + Planned(msg, d.arguments, d.events) &&
                BufferHandles(Planned(msg, d.arguments, d.events)) == d.arguments &&
                WriteEvents(Planned(msg, d.arguments, d.events)) == d.events &&
                |driver.log| >= |d.arguments| + 1 &&
                Calls(driver.log[|driver.log| - |d.arguments| - 1..]) == Bindings(kernel, d.arguments) + [Flush(queue)]
    {
      var accepted := AcceptedContent(mapArgs, argumentTypes, content);
      if accepted.None? {
        return Dropped;
      }
      var msg := accepted.value;
      var handle := ResponsePromise(address, sender, ResponseId(mid));
      var failure, events, arguments, sizes := PlanArguments(driver, msg);
      if failure.Some? {
        return Thrown(failure.value);
      }
      r := Dispatched(Dispatch(handle, events, arguments, sizes, msg));
    }
  }
}
