// The OpenCL driver as the bridge sees it: an oracle. Every call either
// succeeds (and, when it creates an object, hands out a fresh handle) or
// fails with an error status. Which of the two happens is not under the
// bridge's control, so each operation here chooses nondeterministically.
// A ghost log records every call in order together with its status; the
// contracts of the bridge's operations are stated against that log.
module Driver {
  import opened Types

  datatype MemFlags = ReadOnly | ReadWrite | WriteOnly | ReadOnlyCopyHostPtr

  datatype DeviceType = Gpu | Cpu

  datatype DeviceParam = DeviceName | MaxWorkGroupSize | MaxWorkItemDimensions | MaxWorkItemSizes

  /** The driver entry points the bridge uses, with the arguments that matter. */
  datatype Call =
    | CreateKernel(program: Handle, name: string)
    | CreateBuffer(context: Handle, flags: MemFlags, bytes: nat)
    | EnqueueWriteBuffer(queue: Handle, buffer: Handle, bytes: nat)
    | SetKernelArg(kernel: Handle, index: nat, mem: Handle)
    | Flush(queue: Handle)
    | EnqueueNDRangeKernel(queue: Handle, kernel: Handle, workDim: nat, offsets: seq<nat>,
                           global: seq<nat>, local: seq<nat>, waitList: seq<Handle>)
    | EnqueueReadBuffer(queue: Handle, buffer: Handle, bytes: nat, waitList: seq<Handle>)
    | EnqueueMarker(queue: Handle)
    | EnqueueMarkerWithWaitList(queue: Handle, waitList: seq<Handle>)
    | SetEventCallback(event: Handle)
    | ReleaseEvent(event: Handle)
    | GetPlatformCount
    | GetPlatformIDs(count: nat)
    | GetDeviceCount(platform: Handle, deviceType: DeviceType)
    | GetDeviceIDs(platform: Handle, deviceType: DeviceType, count: nat)
    | CreateContext(devices: seq<Handle>)
    | GetDeviceInfo(device: Handle, param: DeviceParam)
    | CreateCommandQueue(context: Handle, device: Handle)

  /** One logged call and the status the driver answered with. */
  datatype Entry = Entry(call: Call, status: ClInt)

  /** An object a successful creation call handed out, with the call that made it. */
  datatype Creation = Creation(call: Call, handle: Handle)

  /** What a successful query answered: the number, or the entries it filled in. */
  datatype Answer = Answer(call: Call, values: seq<nat>)

  /** The creations `calls` make when they hand out `handles`, pairwise. */
  function Made(calls: seq<Call>, handles: seq<Handle>): (r: seq<Creation>)
    requires |calls| == |handles|
    ensures |r| == |calls|
  {
    seq(|calls|, i requires 0 <= i < |calls| => Creation(calls[i], handles[i]))
  }

  /** The calls of a stretch of the log, without their statuses. */
  function Calls(log: seq<Entry>): (r: seq<Call>)
    ensures |r| == |log|
  {
    seq(|log|, i requires 0 <= i < |log| => log[i].call)
  }

  lemma CallsAppend(a: seq<Entry>, b: seq<Entry>)
    ensures Calls(a + b) == Calls(a) + Calls(b)
  {
    assert forall i :: 0 <= i < |a + b| ==> Calls(a + b)[i] == (Calls(a) + Calls(b))[i];
  }

  /**
   * The buffer a kernel sees at argument `index` after `calls`: the one
   * given by the latest `clSetKernelArg` for that kernel and index.
   */
  function BoundAt(calls: seq<Call>, kernel: Handle, index: nat): Option<Handle> {
    if calls == [] then None
    else
      var c := calls[|calls| - 1];
      if c.SetKernelArg? && c.kernel == kernel && c.index == index then Some(c.mem)
      else BoundAt(calls[..|calls| - 1], kernel, index)
  }

  /** Binding every buffer at its own position: index i gets `arguments[i]`. */
  function Bindings(kernel: Handle, arguments: seq<Handle>): (r: seq<Call>)
    ensures |r| == |arguments|
  {
    seq(|arguments|, i requires 0 <= i < |arguments| => SetKernelArg(kernel, i, arguments[i]))
  }

  /** After the bindings the kernel sees argument i at index i, and nothing beyond. */
  lemma {:induction false} BindingsExposeArguments(kernel: Handle, arguments: seq<Handle>, index: nat)
    ensures BoundAt(Bindings(kernel, arguments), kernel, index) ==
              if index < |arguments| then Some(arguments[index]) else None
  {
    var n := |arguments|;
    if n > 0 {
      var b := Bindings(kernel, arguments);
      BindingsExposeArguments(kernel, arguments[..n - 1], index);
      assert b[..n - 1] == Bindings(kernel, arguments[..n - 1]);
    }
  }

  /** Every call of the stretch succeeded. */
  predicate AllSucceeded(entries: seq<Entry>) {
    forall i :: 0 <= i < |entries| ==> entries[i].status == CL_SUCCESS
  }

  /** Calls that bind an argument later override what earlier calls bound there. */
  lemma {:induction false} BoundAtSuffix(a: seq<Call>, b: seq<Call>, kernel: Handle, index: nat)
    requires BoundAt(b, kernel, index).Some?
    ensures BoundAt(a + b, kernel, index) == BoundAt(b, kernel, index)
  {
    var ab := a + b;
    assert ab[|ab| - 1] == b[|b| - 1];
    var c := b[|b| - 1];
    if !(c.SetKernelArg? && c.kernel == kernel && c.index == index) {
      assert ab[..|ab| - 1] == a + b[..|b| - 1];
      BoundAtSuffix(a, b[..|b| - 1], kernel, index);
    }
  }

  /** Any failure status the driver may report. */
  method PickError() returns (e: ClInt)
    ensures e in ClErrors && e != CL_SUCCESS
  {
    assert -5 in ClErrors;
    e :| e in ClErrors;
  }

  class Driver {
    /** The handle the next successful object creation returns. */
    var next: Handle
    ghost var log: seq<Entry>
    /** The objects handed out so far, in the order they were created. */
    ghost var created: seq<Creation>
    /** The answers of the successful queries so far, in order. */
    ghost var answers: seq<Answer>

    constructor ()
      ensures log == [] && created == [] && answers == []
    {
      next := 0;
      log := [];
      created := [];
      answers := [];
    }

    /** A call that creates a backend object (buffer, event, kernel, queue, context). */
    method Create(c: Call) returns (err: ClInt, h: Handle)
      modifies this
      ensures log == old(log) + [Entry(c, err)]
      ensures err == CL_SUCCESS || err in ClErrors
      ensures err == CL_SUCCESS ==> h == old(next) && next == old(next) + 1
      ensures err == CL_SUCCESS ==> created == old(created) + [Creation(c, h)]
      ensures err != CL_SUCCESS ==> next == old(next) && created == old(created)
      ensures answers == old(answers)
    {
      var ok: bool :| true;
      if ok {
        err, h := CL_SUCCESS, next;
        next := next + 1;
        created := created + [Creation(c, h)];
      } else {
        err := PickError();
        h :| true;
      }
      log := log + [Entry(c, err)];
    }

    /** A call that answers one number (a count, a size, a capability). */
    method Query(c: Call) returns (err: ClInt, v: nat)
      modifies this`log, this`answers
      ensures log == old(log) + [Entry(c, err)]
      ensures err == CL_SUCCESS || err in ClErrors
      ensures answers == old(answers) + (if err == CL_SUCCESS then [Answer(c, [v])] else [])
    {
      var ok: bool :| true;
      if ok {
        err := CL_SUCCESS;
      } else {
        err := PickError();
      }
      v :| true;
      log := log + [Entry(c, err)];
      if ok {
        answers := answers + [Answer(c, [v])];
      }
    }

    /**
     * A call that fills a caller-provided array of `n` entries. Asking for a
     * list of platform or device ids with room for zero entries is rejected
     * (CL_INVALID_VALUE, sections 4.1 and 4.2 of the OpenCL 1.2 specification).
     */
    method QueryList(c: Call, n: nat) returns (err: ClInt, vs: seq<nat>)
      modifies this`log, this`answers
      ensures log == old(log) + [Entry(c, err)]
      ensures err == CL_SUCCESS || err in ClErrors
      ensures err == CL_SUCCESS ==> |vs| == n
      ensures (c.GetPlatformIDs? || c.GetDeviceIDs?) && n == 0 ==> err != CL_SUCCESS
      ensures answers == old(answers) + (if err == CL_SUCCESS then [Answer(c, vs)] else [])
    {
      var ok: bool :| true;
      if ok && !((c.GetPlatformIDs? || c.GetDeviceIDs?) && n == 0) {
        err := CL_SUCCESS;
        assert |seq(n, _ => 0)| == n;
        vs :| |vs| == n;
        answers := answers + [Answer(c, vs)];
      } else {
        err := PickError();
        vs := [];
      }
      log := log + [Entry(c, err)];
    }

    /** A call that only reports a status (set an argument, flush, release, register a callback). */
    method Invoke(c: Call) returns (err: ClInt)
      modifies this`log
      ensures log == old(log) + [Entry(c, err)]
      ensures err == CL_SUCCESS || err in ClErrors
    {
      var ok: bool :| true;
      if ok {
        err := CL_SUCCESS;
      } else {
        err := PickError();
      }
      log := log + [Entry(c, err)];
    }
  }
}
