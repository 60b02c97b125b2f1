// The actor facade of the older cppa bridge. `create` applies the same
// geometry checks as the caf facade and creates the kernel. `enqueue`
// maps the message, creates a write-only output buffer and one read-only
// buffer per input (each copied from the host), and binds them rotated:
// input i goes to kernel argument i - 1 and the output buffer, created
// first, to the last kernel argument. Driver failures are only logged:
// a failed buffer creation stops the chain, and the command is created
// with the buffers made so far.
module CppaFacade {
  import opened Types
  import opened Driver
  import opened SpawnConfig
  import Arith

  /** `int` is 32 bits wide on the targets the library supports. */
  const IntModulus: int := 0x1_0000_0000
  const IntMin: int := -0x8000_0000
  const IntLimit: int := 0x8000_0000

  /** Conversion to `size_t`: reduction modulo 2^64. */
  function ToSizeT(x: int): SizeT {
    x % SizeTModulus
  }

  /** Conversion to a 32-bit `int`: the two's-complement value of the low 32 bits. */
  function ToInt(x: int): (r: int)
    ensures IntMin <= r < IntLimit
    ensures r % IntModulus == x % IntModulus
  {
    var m := x % IntModulus;
    if m >= IntLimit then m - IntModulus else m
  }

  /**
   * `std::accumulate(dims, 1, std::multiplies<size_t>{})` as written: the
   * literal `1` makes the accumulator an `int`, so every `size_t` product is
   * narrowed back to `int`.
   */
  function IntAccumulate(dims: seq<SizeT>, acc: int): int {
    if dims == [] then acc
    else IntAccumulate(dims[1..], ToInt(ToSizeT(ToSizeT(acc) * dims[0])))
  }

  /** `ret_size` as written: the `int` fold converted to `size_t`. */
  function RetSizeAsWritten(dims: seq<SizeT>): SizeT {
    ToSizeT(IntAccumulate(dims, 1))
  }

  /** `ret_size` as intended: the number of work items, folded in `size_t`. */
  function RetSize(dims: seq<SizeT>): (r: SizeT)
    ensures r == WorkItems(dims) % SizeTModulus
    ensures WorkItems(dims) < SizeTModulus ==> r == WorkItems(dims)
  {
    DefaultOutputSizeIsWorkItems(dims);
    DefaultOutputSize(dims)
  }

  lemma ToIntLowBits(x: int, y: int)
    requires x % IntModulus == y % IntModulus
    ensures ToInt(x) == ToInt(y)
  {
  }

  /** Going through `size_t` keeps the low 32 bits of a product. */
  lemma SizeTProductLowBits(acc: int, d: nat)
    ensures ToSizeT(ToSizeT(acc) * d) % IntModulus == (acc * d) % IntModulus
  {
    var m := IntModulus;
    assert SizeTModulus == 0x1_0000_0000 * m;
    Arith.ModModMultiple(ToSizeT(acc) * d, m, 0x1_0000_0000);
    Arith.ModMulLeft(ToSizeT(acc), d, m);
    Arith.ModModMultiple(acc, m, 0x1_0000_0000);
    Arith.ModMulLeft(acc, d, m);
  }

  /** The `int` fold is the exact product narrowed to `int` once. */
  lemma {:induction false} IntAccumulateIsNarrowedProduct(dims: seq<SizeT>, acc: int)
    requires IntMin <= acc < IntLimit
    ensures IntAccumulate(dims, acc) == ToInt(acc * WorkItems(dims))
  {
    if dims == [] {
      assert acc * WorkItems(dims) == acc;
    } else {
      var d, rest := dims[0], dims[1..];
      var w := WorkItems(rest);
      var next := ToInt(ToSizeT(ToSizeT(acc) * d));
      IntAccumulateIsNarrowedProduct(rest, next);
      SizeTProductLowBits(acc, d);
      MulLowBits(next, acc * d, w);
      MulAssoc(acc, d, w);
      ToIntLowBits(next * w, acc * WorkItems(dims));
    }
  }

  lemma MulAssoc(a: int, b: int, c: int)
    ensures a * b * c == a * (b * c)
  {
  }

  /** Factors that agree in their low 32 bits give products that agree there. */
  lemma MulLowBits(x: int, y: int, w: int)
    requires x % IntModulus == y % IntModulus
    ensures (x * w) % IntModulus == (y * w) % IntModulus
  {
    Arith.ModMulLeft(x, w, IntModulus);
    Arith.ModMulLeft(y, w, IntModulus);
  }

  /**
   * As written, the output size is the number of work items narrowed to a
   * 32-bit `int` and sign-extended to `size_t`; it is right exactly up to
   * 2^31 - 1 work items.
   */
  lemma RetSizeAsWrittenIsNarrowed(dims: seq<SizeT>)
    ensures RetSizeAsWritten(dims) == ToSizeT(ToInt(WorkItems(dims)))
    ensures WorkItems(dims) < IntLimit ==> RetSizeAsWritten(dims) == RetSize(dims) == WorkItems(dims)
  {
    var w := WorkItems(dims);
    IntAccumulateIsNarrowedProduct(dims, 1);
    assert 1 * w == w;
    DefaultOutputSizeIsWorkItems(dims);
    if w < IntLimit {
      Arith.ModUnique(w, IntModulus, 0, w);
      Arith.ModUnique(w, SizeTModulus, 0, w);
    }
  }

  /** 65536 x 32768 work items: as written the output buffer is sized 2^64 - 2^31 elements instead of 2^31. */
  lemma RetSizeAsWrittenOverflows()
    ensures WorkItems([65536, 32768]) == 0x8000_0000
    ensures RetSizeAsWritten([65536, 32768]) == 0xFFFF_FFFF_8000_0000
    ensures RetSize([65536, 32768]) == 0x8000_0000
  {
    var dims: seq<SizeT> := [65536, 32768];
    assert dims[1..][1..] == [];
    RetSizeAsWrittenIsNarrowed(dims);
  }

  /** The kernel argument index buffer i is bound to: inputs move down by one, the output (buffer 0) goes last. */
  function KernelIndex(i: nat, n: nat): (r: nat)
    requires i < n
    ensures r < n
    ensures ArgumentAt(r, n) == i
  {
    if i == 0 then n - 1 else i - 1
  }

  /** The buffer a kernel argument index holds. */
  function ArgumentAt(j: nat, n: nat): (r: nat)
    requires j < n
    ensures r < n
  {
    if j == n - 1 then 0 else j + 1
  }

  /** Both index maps are bijections on 0 .. n-1, each the other's inverse. */
  lemma {:induction false} KernelIndexBijection(n: nat)
    ensures forall j :: 0 <= j < n ==> KernelIndex(ArgumentAt(j, n), n) == j
    ensures forall i, i' :: 0 <= i < n && 0 <= i' < n && KernelIndex(i, n) == KernelIndex(i', n) ==> i == i'
  {
    forall i, i' | 0 <= i < n && 0 <= i' < n && KernelIndex(i, n) == KernelIndex(i', n)
      ensures i == i'
    {
      assert ArgumentAt(KernelIndex(i, n), n) == i;
    }
  }

  /** The buffers in kernel argument order. */
  function Rotate(a: seq<Handle>): (r: seq<Handle>)
    requires |a| >= 1
    ensures |r| == |a|
    ensures forall j :: 0 <= j < |a| ==> r[j] == a[ArgumentAt(j, |a|)]
    ensures multiset(r) == multiset(a)
  {
    assert a == [a[0]] + a[1..];
    a[1..] + [a[0]]
  }

  /** The calls of the argument-binding overload without inputs, in the order it makes them. */
  function RotatedBindings(kernel: Handle, a: seq<Handle>): (r: seq<Call>)
    requires |a| >= 1
    ensures |r| == |a|
  {
    seq(|a| - 1, j requires 0 <= j < |a| - 1 => SetKernelArg(kernel, j, a[j + 1]))
      + [SetKernelArg(kernel, |a| - 1, a[0])]
  }

  /** After the rotated bindings the kernel sees buffer `ArgumentAt(j)` at index j. */
  lemma RotatedBindingsExpose(kernel: Handle, a: seq<Handle>, index: nat)
    requires |a| >= 1
    ensures BoundAt(RotatedBindings(kernel, a), kernel, index) ==
              if index < |a| then Some(a[ArgumentAt(index, |a|)]) else None
  {
    assert RotatedBindings(kernel, a) == Bindings(kernel, Rotate(a));
    BindingsExposeArguments(kernel, Rotate(a), index);
  }

  /** The read-only, host-copied buffers created for the inputs, in order. */
  function InputBufferCalls(context: Handle, elementSize: CType -> nat, args: Message): (r: seq<Call>)
    ensures |r| == |args|
  {
    seq(|args|, i requires 0 <= i < |args| =>
      CreateBuffer(context, ReadOnlyCopyHostPtr, ByteSize(elementSize(args[i].ty), |args[i].elems|)))
  }

  lemma SucceededPrepend(e: Entry, rest: seq<Entry>)
    requires e.status == CL_SUCCESS && AllSucceeded(rest)
    ensures AllSucceeded([e] + rest)
  {
    forall i | 0 <= i < |[e] + rest| ensures ([e] + rest)[i].status == CL_SUCCESS {
      if i > 0 {
        assert ([e] + rest)[i] == rest[i - 1];
      }
    }
  }

  /** What `enqueue` hands to the command it creates. */
  datatype CommandRequest = CommandRequest(handle: ResponsePromise, arguments: seq<Handle>)

  class ActorFacade {
    const address: ActorId
    const kernel: Handle
    const program: Handle
    const context: Handle
    const queue: Handle
    const globalDimensions: seq<SizeT>
    const globalOffsets: seq<SizeT>
    const localDimensions: seq<SizeT>
    const mapArgs: Message -> Option<Message>
    const mapResult: seq<int> -> Message
    /** `Ret` and `Args...`: the result vector type and the argument vector types. */
    const retType: CType
    const argTypes: seq<CType>
    /** `sizeof(T::value_type)` for a vector type `T`. */
    const elementSize: CType -> nat

    constructor (address: ActorId, prog: Program, kernel: Handle, globalDimensions: seq<SizeT>,
                 globalOffsets: seq<SizeT>, localDimensions: seq<SizeT>, mapArgs: Message -> Option<Message>,
                 mapResult: seq<int> -> Message, retType: CType, argTypes: seq<CType>, elementSize: CType -> nat)
      ensures this.address == address && this.kernel == kernel
      ensures program == prog.program && context == prog.context && queue == prog.queue
      ensures this.globalDimensions == globalDimensions && this.globalOffsets == globalOffsets
      ensures this.localDimensions == localDimensions
      ensures this.mapArgs == mapArgs && this.mapResult == mapResult
      ensures this.retType == retType && this.argTypes == argTypes && this.elementSize == elementSize
    {
      this.address, this.kernel := address, kernel;
      this.program, this.context, this.queue := prog.program, prog.context, prog.queue;
      this.globalDimensions, this.globalOffsets, this.localDimensions := globalDimensions, globalOffsets, localDimensions;
      this.mapArgs, this.mapResult := mapArgs, mapResult;
      this.retType, this.argTypes, this.elementSize := retType, argTypes, elementSize;
    }

    /**
     * `create`: the geometry checks, in the same order as the caf facade's,
     * before any driver call; then the kernel, whose failure is thrown.
     */
    static method Create(driver: Driver, address: ActorId, prog: Program, kernelName: string,
                         mapArgs: Message -> Option<Message>, mapResult: seq<int> -> Message,
                         globalDims: seq<SizeT>, offsets: seq<SizeT>, localDims: seq<SizeT>,
                         retType: CType, argTypes: seq<CType>, elementSize: CType -> nat)
      returns (r: Result<ActorFacade, SpawnError>)
      modifies driver
      ensures Validate(globalDims, offsets, localDims).Some? ==>
                r == Err(InvalidConfig(Validate(globalDims, offsets, localDims).value)) &&
                driver.log == old(driver.log)
      ensures Validate(globalDims, offsets, localDims).None? ==>
                |driver.log| == |old(driver.log)| + 1 &&
                driver.log[..|old(driver.log)|] == old(driver.log) &&
                driver.log[|old(driver.log)|].call == CreateKernel(prog.program, kernelName) &&
                (r.Ok? <==> driver.log[|old(driver.log)|].status == CL_SUCCESS) &&
                (r.Err? ==> r.error == KernelError(driver.log[|old(driver.log)|].status))
      ensures r.Ok? ==> fresh(r.value) && r.value.kernel == old(driver.next) &&
                        r.value.globalDimensions == globalDims && r.value.globalOffsets == offsets &&
                        r.value.localDimensions == localDims && r.value.argTypes == argTypes
      ensures r.Ok? ==> r.value.address == address && r.value.program == prog.program &&
                        r.value.context == prog.context && r.value.queue == prog.queue &&
                        r.value.mapArgs == mapArgs && r.value.mapResult == mapResult &&
                        r.value.retType == retType && r.value.elementSize == elementSize
    {
      var invalid := Validate(globalDims, offsets, localDims);
      if invalid.Some? {
        return Err(InvalidConfig(invalid.value));
      }
      var err, kernel := driver.Create(CreateKernel(prog.program, kernelName));
      if err != CL_SUCCESS {
        return Err(KernelError(err));
      }
      var facade := new ActorFacade(address, prog, kernel, globalDims, offsets, localDims, mapArgs, mapResult,
                                    retType, argTypes, elementSize);
      r := Ok(facade);
    }

    /** The mapped message, when the mapper accepts it as an `args_tuple`. */
    function Accepted(content: Message): (r: Option<Message>)
      ensures r.Some? <==> mapArgs(content).Some? && MatchElements(mapArgs(content).value, argTypes)
      ensures r.Some? ==> r == mapArgs(content)
    {
      var opt := mapArgs(content);
      if opt.Some? && MatchElements(opt.value, argTypes) then opt else None
    }

    /** The write-only output buffer of `ret_size` result elements. */
    function OutputBufferCall(retSize: SizeT): Call {
      CreateBuffer(context, WriteOnly, ByteSize(elementSize(retType), retSize))
    }

    /** The buffers `add_arguments_to_kernel` creates, in order: the output buffer, then one per input. */
    function PlannedBufferCalls(retSize: SizeT, args: Message): (r: seq<Call>)
      ensures |r| == |args| + 1
    {
      [OutputBufferCall(retSize)] + InputBufferCalls(context, elementSize, args)
    }

    /**
     * The driver calls `add_arguments_to_kernel` makes and the buffers it
     * keeps: the output buffer first, then one buffer per input until a
     * creation fails; only when all were created are they bound, rotated.
     * `made` are the objects created meanwhile: buffer i of the argument
     * vector is the one the i-th creation call handed out.
     */
    predicate ArgumentsPlanned(added: seq<Entry>, made: seq<Creation>, arguments: seq<Handle>, retSize: SizeT,
                               args: Message) {
      && |arguments| <= |args| + 1
      && made == Made(PlannedBufferCalls(retSize, args)[..|arguments|], arguments)
      && if |arguments| == 0 then
        |added| == 1 && added[0].call == OutputBufferCall(retSize) && added[0].status != CL_SUCCESS
      else
        var k := |arguments| - 1;
        && k <= |args|
        && (k < |args| ==>
              |added| == k + 2 &&
              Calls(added) == [OutputBufferCall(retSize)] + InputBufferCalls(context, elementSize, args)[..k + 1] &&
              AllSucceeded(added[..k + 1]) && added[k + 1].status != CL_SUCCESS)
        && (k == |args| ==>
              |added| == k + 1 + |arguments| &&
              Calls(added) == [OutputBufferCall(retSize)] + InputBufferCalls(context, elementSize, args)
                                + RotatedBindings(kernel, arguments) &&
              AllSucceeded(added[..k + 1]))
    }

    /**
     * When every buffer was created, the kernel sees input i at argument
     * i - 1 and the output buffer at the last argument.
     */
    lemma CompletePlanBindsRotated(added: seq<Entry>, made: seq<Creation>, arguments: seq<Handle>, retSize: SizeT,
                                   args: Message)
      requires ArgumentsPlanned(added, made, arguments, retSize, args) && |arguments| == |args| + 1
      ensures made[0] == Creation(OutputBufferCall(retSize), arguments[0])
      ensures forall i :: 0 <= i < |args| ==>
                made[i + 1] == Creation(InputBufferCalls(context, elementSize, args)[i], arguments[i + 1])
      ensures BoundAt(Calls(added), kernel, |args|) == Some(arguments[0])
      ensures forall i :: 1 <= i < |arguments| ==> BoundAt(Calls(added), kernel, i - 1) == Some(arguments[i])
      ensures forall i :: 0 <= i < |arguments| ==>
                BoundAt(Calls(added), kernel, KernelIndex(i, |arguments|)) == Some(arguments[i])
    {
      var prefix := [OutputBufferCall(retSize)] + InputBufferCalls(context, elementSize, args);
      var rot := RotatedBindings(kernel, arguments);
      assert Calls(added) == prefix + rot;
      forall i | 0 <= i < |arguments|
        ensures BoundAt(Calls(added), kernel, KernelIndex(i, |arguments|)) == Some(arguments[i])
      {
        var j := KernelIndex(i, |arguments|);
        RotatedBindingsExpose(kernel, arguments, j);
        BoundAtSuffix(prefix, rot, kernel, j);
      }
      assert KernelIndex(0, |arguments|) == |args|;
      forall i | 1 <= i < |arguments|
        ensures BoundAt(Calls(added), kernel, i - 1) == Some(arguments[i])
      {
        assert KernelIndex(i, |arguments|) == i - 1;
      }
    }

    /**
     * `add_arguments_to_kernel_rec` without inputs left: binds buffer i to
     * argument i - 1 for i >= 1, then buffer 0 to the last argument; the
     * statuses are only logged.
     */
    method BindRotated(driver: Driver, arguments: seq<Handle>)
      requires |arguments| >= 1
      modifies driver
      ensures |driver.log| == |old(driver.log)| + |arguments|
      ensures driver.log[..|old(driver.log)|] == old(driver.log)
      ensures Calls(driver.log[|old(driver.log)|..]) == RotatedBindings(kernel, arguments)
      ensures driver.created == old(driver.created)
    {
      ghost var t0 := |driver.log|;
      var n := |arguments|;
      var i := 1;
      while i < n
        invariant 1 <= i <= n
        invariant |driver.log| == t0 + i - 1 && driver.log[..t0] == old(driver.log)
        invariant Calls(driver.log[t0..]) == RotatedBindings(kernel, arguments)[..i - 1]
        invariant driver.created == old(driver.created)
      {
        ghost var before := driver.log;
        var _ := driver.Invoke(SetKernelArg(kernel, i - 1, arguments[i]));
        assert driver.log[t0..] == before[t0..] + [driver.log[|driver.log| - 1]];
        CallsAppend(before[t0..], [driver.log[|driver.log| - 1]]);
        assert RotatedBindings(kernel, arguments)[..i] ==
               RotatedBindings(kernel, arguments)[..i - 1] + [SetKernelArg(kernel, i - 1, arguments[i])];
        i := i + 1;
      }
      ghost var before := driver.log;
      var _ := driver.Invoke(SetKernelArg(kernel, n - 1, arguments[0]));
      assert driver.log[t0..] == before[t0..] + [driver.log[|driver.log| - 1]];
      CallsAppend(before[t0..], [driver.log[|driver.log| - 1]]);
      assert RotatedBindings(kernel, arguments) ==
             RotatedBindings(kernel, arguments)[..n - 1] + [SetKernelArg(kernel, n - 1, arguments[0])];
    }

    /**
     * The buffer-creating steps of the `add_arguments_to_kernel_rec` chain:
     * one read-only, host-copied buffer per input; the first failure is
     * logged and ends the chain.
     */
    method CreateInputBuffers(driver: Driver, arguments: seq<Handle>, args: Message)
      returns (arguments': seq<Handle>)
      modifies driver
      ensures |arguments| <= |arguments'| <= |arguments| + |args|
      ensures arguments'[..|arguments|] == arguments
      ensures |driver.log| >= |old(driver.log)| && driver.log[..|old(driver.log)|] == old(driver.log)
      ensures var k, added := |arguments'| - |arguments|, driver.log[|old(driver.log)|..];
              && (k < |args| ==> |added| == k + 1 && added[k].status != CL_SUCCESS)
              && (k == |args| ==> |added| == k)
              && Calls(added) == InputBufferCalls(context, elementSize, args)[..|added|]
              && AllSucceeded(added[..k])
      ensures driver.created ==
                old(driver.created) + Made(InputBufferCalls(context, elementSize, args)[..|arguments'| - |arguments|],
                                           arguments'[|arguments|..])
    {
      ghost var t0 := |driver.log|;
      var calls := InputBufferCalls(context, elementSize, args);
      arguments' := arguments;
      var i := 0;
      while i < |args|
        invariant 0 <= i <= |args|
        invariant |arguments'| == |arguments| + i && arguments'[..|arguments|] == arguments
        invariant |driver.log| == t0 + i && driver.log[..t0] == old(driver.log)
        invariant Calls(driver.log[t0..]) == calls[..i]
        invariant AllSucceeded(driver.log[t0..])
        invariant driver.created == old(driver.created) + Made(calls[..i], arguments'[|arguments|..])
      {
        ghost var before := driver.log;
        var err, buffer := driver.Create(calls[i]);
        assert driver.log[t0..] == before[t0..] + [Entry(calls[i], err)];
        CallsAppend(before[t0..], [Entry(calls[i], err)]);
        assert calls[..i + 1] == calls[..i] + [calls[i]];
        if err != CL_SUCCESS {
          assert driver.log[t0..][..i] == before[t0..];
          return;
        }
        arguments' := arguments' + [buffer];
        assert arguments'[|arguments|..] == arguments'[|arguments|..|arguments| + i] + [buffer];
        assert Made(calls[..i + 1], arguments'[|arguments|..]) == Made(calls[..i], arguments'[|arguments|..|arguments| + i]) + [Creation(calls[i], buffer)];
        i := i + 1;
      }
      assert driver.log[t0..][..i] == driver.log[t0..];
    }

    /**
     * The whole `add_arguments_to_kernel_rec` chain: the input buffers, and
     * only when all were created the rotated bindings.
     */
    method AddInputArguments(driver: Driver, arguments: seq<Handle>, args: Message)
      returns (arguments': seq<Handle>)
      requires |arguments| >= 1
      modifies driver
      ensures |arguments| <= |arguments'| <= |arguments| + |args|
      ensures arguments'[..|arguments|] == arguments
      ensures |driver.log| >= |old(driver.log)| && driver.log[..|old(driver.log)|] == old(driver.log)
      ensures var k, added := |arguments'| - |arguments|, driver.log[|old(driver.log)|..];
              k < |args| ==>
                |added| == k + 1 && Calls(added) == InputBufferCalls(context, elementSize, args)[..k + 1] &&
                AllSucceeded(added[..k]) && added[k].status != CL_SUCCESS
      ensures var k, added := |arguments'| - |arguments|, driver.log[|old(driver.log)|..];
              k == |args| ==>
                |added| == k + |arguments'| &&
                Calls(added) == InputBufferCalls(context, elementSize, args) + RotatedBindings(kernel, arguments') &&
                AllSucceeded(added[..k])
      ensures driver.created ==
                old(driver.created) + Made(InputBufferCalls(context, elementSize, args)[..|arguments'| - |arguments|],
                                           arguments'[|arguments|..])
    {
      ghost var t0 := |driver.log|;
      arguments' := CreateInputBuffers(driver, arguments, args);
      if |arguments'| - |arguments| < |args| {
        return;
      }
      ghost var creates := driver.log[t0..];
      assert InputBufferCalls(context, elementSize, args)[..|creates|] == InputBufferCalls(context, elementSize, args);
      ghost var t1 := |driver.log|;
      BindRotated(driver, arguments');
      assert driver.log[t0..] == creates + driver.log[t1..];
      CallsAppend(creates, driver.log[t1..]);
      assert driver.log[t0..][..|args|] == creates[..|args|];
    }

    /**
     * `add_arguments_to_kernel`: clears the buffers, creates the write-only
     * output buffer of `ret_size` elements (a failure is logged and leaves
     * no buffers) and continues with the inputs.
     */
    method AddArgumentsToKernel(driver: Driver, retSize: SizeT, args: Message) returns (arguments: seq<Handle>)
      modifies driver
      ensures |driver.log| >= |old(driver.log)| && driver.log[..|old(driver.log)|] == old(driver.log)
      ensures |driver.created| >= |old(driver.created)| && driver.created[..|old(driver.created)|] == old(driver.created)
      ensures ArgumentsPlanned(driver.log[|old(driver.log)|..], driver.created[|old(driver.created)|..], arguments,
                               retSize, args)
    {
      ghost var t0, c0 := |driver.log|, |driver.created|;
      arguments := [];
      var err, buffer := driver.Create(OutputBufferCall(retSize));
      if err != CL_SUCCESS {
        assert driver.log[t0..] == [Entry(OutputBufferCall(retSize), err)];
        assert driver.created[c0..] == [];
        return;
      }
      ghost var first := driver.log[t0];
      arguments := AddInputArguments(driver, [buffer], args);
      assert driver.log[t0..] == [first] + driver.log[t0 + 1..];
      assert driver.created[c0..] == [Creation(OutputBufferCall(retSize), buffer)] + driver.created[c0 + 1..];
      assert driver.created[..c0] == old(driver.created);
      PlannedFromParts(first, driver.log[t0 + 1..], driver.created[c0 + 1..], arguments, retSize, args);
    }

    /** The output buffer's creation followed by the input chain is a planned argument list. */
    lemma PlannedFromParts(e: Entry, tail: seq<Entry>, tailMade: seq<Creation>, arguments: seq<Handle>,
                           retSize: SizeT, args: Message)
      requires e == Entry(OutputBufferCall(retSize), CL_SUCCESS) && 1 <= |arguments| <= 1 + |args|
      requires tailMade == Made(InputBufferCalls(context, elementSize, args)[..|arguments| - 1], arguments[1..])
      requires var k := |arguments| - 1;
               k < |args| ==>
                 |tail| == k + 1 && Calls(tail) == InputBufferCalls(context, elementSize, args)[..k + 1] &&
                 AllSucceeded(tail[..k]) && tail[k].status != CL_SUCCESS
      requires var k := |arguments| - 1;
               k == |args| ==>
                 |tail| == k + |arguments| &&
                 Calls(tail) == InputBufferCalls(context, elementSize, args) + RotatedBindings(kernel, arguments) &&
                 AllSucceeded(tail[..k])
      ensures ArgumentsPlanned([e] + tail, [Creation(OutputBufferCall(retSize), arguments[0])] + tailMade, arguments,
                               retSize, args)
    {
      var k := |arguments| - 1;
      var calls := PlannedBufferCalls(retSize, args)[..k + 1];
      assert calls == [OutputBufferCall(retSize)] + InputBufferCalls(context, elementSize, args)[..k];
      var made := [Creation(OutputBufferCall(retSize), arguments[0])] + tailMade;
      forall i | 0 <= i < k + 1
        ensures Made(calls, arguments)[i] == made[i]
      {
        if i > 0 {
          assert made[i] == tailMade[i - 1];
        }
      }
      var added := [e] + tail;
      CallsAppend([e], tail);
      assert Calls([e]) == [OutputBufferCall(retSize)];
      assert added[..k + 1] == [e] + tail[..k];
      SucceededPrepend(e, tail[..k]);
      if k < |args| {
        assert added[k + 1] == tail[k];
        var c := [OutputBufferCall(retSize)] + InputBufferCalls(context, elementSize, args)[..k + 1];
        assert Calls(added) == c;
      } else {
        var c := [OutputBufferCall(retSize)] + InputBufferCalls(context, elementSize, args) + RotatedBindings(kernel, arguments);
        assert Calls(added) == c;
      }
    }

    /**
     * `enqueue_impl`: a message the mapper rejects is only logged; otherwise
     * the buffers are planned for the mapped arguments and a command is
     * created with them, even when planning stopped early.
     */
    method EnqueueImpl(driver: Driver, sender: ActorId, mid: MessageId, content: Message)
      returns (r: Option<CommandRequest>)
      modifies driver
      ensures r.None? <==> Accepted(content).None?
      ensures r.None? ==> driver.log == old(driver.log)
      ensures r.Some? ==>
                r.value.handle == ResponsePromise(address, sender, ResponseId(mid)) &&
                |driver.log| >= |old(driver.log)| && driver.log[..|old(driver.log)|] == old(driver.log) &&
                |driver.created| >= |old(driver.created)| &&
                driver.created[..|old(driver.created)|] == old(driver.created) &&
                ArgumentsPlanned(driver.log[|old(driver.log)|..], driver.created[|old(driver.created)|..],
                                 r.value.arguments, RetSize(globalDimensions), Accepted(content).value)
    {
      var opt := Accepted(content);
      if opt.None? {
        return None;
      }
      var handle := ResponsePromise(address, sender, ResponseId(mid));
      var retSize := RetSize(globalDimensions);
      var arguments := AddArgumentsToKernel(driver, retSize, opt.value);
      r := Some(CommandRequest(handle, arguments));
    }
  }
}
