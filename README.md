# OpenCL actor bridge: a Dafny model of its host-side logic

This project models the host side of an OpenCL bridge for an actor runtime.
A kernel actor ("facade") checks its launch geometry and creates an OpenCL
kernel. For each request message it plans one device buffer per kernel
argument, binds the buffers to the kernel, and hands them to a reference-counted
`command`. The command launches the kernel, reads the results back and
delivers exactly one reply. A separate discovery step (`opencl_metainfo`)
picks the platform, the device type and the devices that can be used.

Two facades are modelled, each as written:

- the newer caf facade, with `in` / `in_out` / `out` argument descriptors;
- the older cppa facade, whose output buffer is created first but bound as
  the last kernel argument.

The OpenCL driver is the class `Driver.Driver`. Each call either succeeds
and returns a fresh handle, or fails with an OpenCL status code. Every call
is appended to a ghost log together with its status, and the contracts speak
about that log. Modules follow the source files:

| module | file |
|---|---|
| `Types` | shared vocabulary: results, handles, `cl_int`, `size_t`, host types, messages |
| `Driver` | the OpenCL driver as an oracle, and kernel-argument bindings |
| `Arguments` | `caf/opencl/arguments.hpp` |
| `SpawnConfig` | the geometry checks and the `size_t` product, shared by both facades' `create` |
| `CafFacade` | `caf/opencl/actor_facade.hpp` |
| `CppaFacade` | `cppa/opencl/actor_facade.hpp` |
| `Command` | `caf/opencl/command.hpp` |
| `Metainfo` | `src/opencl_metainfo.cpp` |
| `Arith` | facts about remainders that the wrap-around of machine integers needs |

The files of the source do not agree with each other, and the model does not
reconcile them:

- The caf facade builds a `command` from six values; the command's constructor takes seven.
- The facade's fields are `config_` and `map_result_`. The command reads `spawn_cfg_` and `map_results_`.
- `create_buffer` for `out` reads `wrapper.size_calculator_`, but `out` declares `fun_`.

`CafFacade.ActorFacade.Enqueue` therefore ends with the values it would hand
to the command (`Dispatch`). `Command.Command` is built from its own
constructor's parameters.

## Model

| member | source | states |
|---|---|---|
| Arguments.OutSize | caf/opencl/arguments.hpp:54-73 | Without a calculator, `out` yields the dummy size 0. With one, it yields the calculator's own answer: the size it computes for the message, or nothing exactly when it does not apply. |
| Arguments.DescriptorRoles | caf/opencl/arguments.hpp:87-112 | `is_input_arg` holds exactly for `in` and `in_out`. `is_output_arg` holds exactly for `out` and `in_out`. `requires_size_arg` holds exactly for what is an output and not an input (`out`). Every descriptor is an input or an output, and both exactly for `in_out`. |
| Arguments.CArrToVec | caf/opencl/arguments.hpp:76-85 | A pointer `T*` becomes `std::vector<T>`. Any other type is unchanged. The result is never a pointer. |
| Arguments.ExtractTypeUniform | caf/opencl/arguments.hpp:114-131 | `extract_type` gives the same type for `in`, `in_out` and `out` of one `T`: `carr_to_vec` of `T`. A second application changes nothing. |
| Arguments.Positions | caf/opencl/actor_facade.hpp:60-68 | The filtered descriptors are listed in strictly increasing declared position. Each one satisfies the trait, and every descriptor that satisfies it is listed. |
| Arguments.FilteredTypes | caf/opencl/actor_facade.hpp:60-65 | `input_types` / `output_types` by a walk over the descriptors: there is one type per descriptor that passes the filter. |
| Arguments.FilteredTypesAtPositions | caf/opencl/actor_facade.hpp:60-65 | The k-th filtered type is `extract_type` of the k-th descriptor that passes the filter, in declared order. |
| Arguments.FilteredTypesCons | caf/opencl/actor_facade.hpp:60-65 | Filtering a list that starts with `d` lists `extract_type(d)` first when `d` passes, followed by the filtered rest; otherwise just the filtered rest. |
| Arguments.PositionsCount | caf/opencl/actor_facade.hpp:60-68 | A filter keeps exactly as many descriptors as satisfy its trait. |
| Arguments.InputsAndSizedPartition | caf/opencl/actor_facade.hpp:60-68 | Input types plus sized types are all descriptors. The output types are the sized ones plus the `in_out`s. |
| SpawnConfig.CheckVec | caf/opencl/actor_facade.hpp:89-97 | A vector is accepted exactly when it is empty or as long as the global dimensions. A rejection names the vector. |
| SpawnConfig.Validate | caf/opencl/actor_facade.hpp:84-99 | A geometry is accepted exactly when it is well formed. The empty-dimensions error comes exactly when there are no dimensions. The offsets error comes exactly when there are dimensions and the offsets are mismatched. The local-dimensions error comes exactly when the offsets pass and the local dimensions are mismatched. |
| SpawnConfig.AccumulateSizeTIsWrappedProduct | caf/opencl/actor_facade.hpp:150-153 | Folding `std::multiplies<size_t>` from `acc`, wrapping at every step, gives `acc` times the number of work items, modulo 2^64. |
| SpawnConfig.DefaultOutputSizeIsWorkItems | caf/opencl/actor_facade.hpp:150-153 | `default_output_size_` is the product of the global dimensions modulo 2^64. It is the exact product whenever that fits a `size_t`. |
| Driver.BindingsExposeArguments | caf/opencl/actor_facade.hpp:156-161 | After the binding loop, kernel argument i holds `arguments[i]` for every i below `arguments.size()`, and no other index is bound. |
| CafFacade.GetSizeForArgument | caf/opencl/actor_facade.hpp:224-232 | The dummy calculator gives the default size. A user calculator gives its own result, and nothing exactly when it rejects the message. |
| CafFacade.SizesOfSpec | caf/opencl/actor_facade.hpp:207-222 | Planning the sizes succeeds exactly when every `out` has a size. The k-th pushed size is the size of the k-th `out`, in declared order. |
| CafFacade.InOutLeavesSizesShort | caf/opencl/actor_facade.hpp:193-222 | Whenever planning succeeds, the pushed sizes plus the number of `in_out` descriptors equal the number of output types. The sizes are fewer than the outputs exactly when some descriptor is `in_out`. |
| CafFacade.AcceptedContent | caf/opencl/actor_facade.hpp:109-122 | A message is used exactly when the input mapper (if set) yields one and it matches the input types. Without a mapper, the message used is the content itself. |
| CafFacade.AsWrittenSkipsTrailingOut | caf/opencl/actor_facade.hpp:165-175 | For `[in<T>, out<T>]`, the descriptors visited as written are only `[in<T>]`, which gives no size. Planning every descriptor gives the default size. |
| CafFacade.ActorFacade.constructor | caf/opencl/actor_facade.hpp:137-154 | Keeps kernel, program handles, config, mappers and descriptors. The default output size is the number of work items modulo 2^64. |
| CafFacade.ActorFacade.Create | caf/opencl/actor_facade.hpp:78-107 | A bad geometry is rejected with its reason before any driver call. Otherwise there is exactly one `clCreateKernel`. The facade is created exactly when that call succeeds, and a failure carries its status. The facade keeps the kernel, the config, the mappers, the descriptors and `sizeof`. |
| CafFacade.ActorFacade.CreateBuffer | caf/opencl/actor_facade.hpp:177-222 | A success makes exactly one buffer creation and one write, with the overload's flags and its `size_t` byte count (element count times `sizeof`, modulo 2^64, or the `out` size). The driver's new objects are exactly that buffer and the write event, and they are the handles appended to the arguments and the events. A size is appended only for `out`, and it is the `out` size. Any failure leaves the vectors as they were. A rejecting calculator fails before any driver call. |
| CafFacade.ActorFacade.CreateOutputBuffer | caf/opencl/actor_facade.hpp:207-222 | Corrected `out` step: the one new driver object is a buffer of the `out` size, and it is the handle appended to the arguments; the size is appended too. It is used by the walk over all descriptors. |
| CafFacade.ActorFacade.BindKernelArguments | caf/opencl/actor_facade.hpp:156-163 | Binds buffer i at kernel index i, in order, and stops at the first failure. On success the calls are exactly the bindings followed by one `clFlush`. |
| CafFacade.ActorFacade.AddKernelArguments | caf/opencl/actor_facade.hpp:165-175 | As written: for each of the first `|input_types|` descriptors i, the new driver objects are a buffer written from message element i, which is `arguments[i]`, and its write event, which is `events[i]`. The sizes are those of the descriptors at those positions. Then the bindings and the flush. |
| CafFacade.ActorFacade.PlanArguments | caf/opencl/actor_facade.hpp:156-222 | Corrected planning: the new driver objects are, per descriptor in order, its buffer and, for an input, the write of the next message element. Buffer i is `arguments[i]` and the j-th write event is `events[j]`. The sizes are exactly those of every `out`, in declared order. A rejecting calculator fails exactly when some `out` has no size. On success the last calls are the bindings of all buffers and the flush. |
| CafFacade.ActorFacade.PlannedHandles | caf/opencl/actor_facade.hpp:156-222 | In the walk over all descriptors, the buffers in creation order are exactly the arguments bound to the kernel, and the write events in creation order are exactly the events handed on. |
| CafFacade.ActorFacade.Enqueue | caf/opencl/actor_facade.hpp:109-134 | A message is dropped, with no driver call, exactly when it is not accepted. A dispatched request carries the promise (facade, sender, response id) and the accepted message. Its buffers and events are the objects the walk over all descriptors created, buffer i for descriptor i and one write event per input. It also carries the sizes of the `out`s, and bindings plus flush are the last calls. |
| CppaFacade.ToInt | cppa/opencl/actor_facade.hpp:143-145 | Narrowing to `int` gives a value in [-2^31, 2^31) with the same low 32 bits. |
| CppaFacade.IntAccumulateIsNarrowedProduct | cppa/opencl/actor_facade.hpp:143-145 | The `int`-seeded fold equals the exact product narrowed once to `int`. |
| CppaFacade.RetSizeAsWrittenIsNarrowed | cppa/opencl/actor_facade.hpp:143-145 | `ret_size` as written is the work-item count narrowed to `int`, then sign-extended to `size_t`. Below 2^31 work items it equals the intended size. |
| CppaFacade.RetSizeAsWrittenOverflows | cppa/opencl/actor_facade.hpp:143-145 | Dimensions [65536, 32768] give 2^31 work items. As written, `ret_size` is then 2^64 - 2^31; the intended value is 2^31. |
| CppaFacade.RetSize | cppa/opencl/actor_facade.hpp:143-145 | Corrected `ret_size`: the number of work items modulo 2^64, and exact when it fits. |
| CppaFacade.KernelIndex | cppa/opencl/actor_facade.hpp:170-181 | Buffer i is bound to index i-1, and buffer 0 to the last index. The index is in range, and `ArgumentAt` maps it back to i. |
| CppaFacade.KernelIndexBijection | cppa/opencl/actor_facade.hpp:170-181 | The binding map and its reverse are inverse to each other. The map is injective, hence a bijection on 0..n-1. |
| CppaFacade.Rotate | cppa/opencl/actor_facade.hpp:170-181 | The buffers in kernel-argument order are a permutation of the argument vector: index j holds buffer `ArgumentAt(j)`. |
| CppaFacade.RotatedBindingsExpose | cppa/opencl/actor_facade.hpp:170-181 | After the rotated binding calls, kernel index j holds buffer `ArgumentAt(j)`, and no index beyond the buffers is bound. |
| CppaFacade.ActorFacade.constructor | cppa/opencl/actor_facade.hpp:124-135 | Keeps kernel, program handles, geometry, mappers and the declared types. |
| CppaFacade.ActorFacade.Create | cppa/opencl/actor_facade.hpp:78-114 | Same geometry checks and order as the caf facade, before any driver call. Then exactly one `clCreateKernel`, whose failure is thrown with its status. The facade keeps the kernel, the geometry, the program's handles, the mappers, the types and `sizeof`. |
| CppaFacade.ActorFacade.Accepted | cppa/opencl/actor_facade.hpp:137-141 | A request is used exactly when the argument mapper yields a tuple of the declared argument types. |
| CppaFacade.ActorFacade.BindRotated | cppa/opencl/actor_facade.hpp:170-182 | Exactly n binding calls, the rotated bindings in the order the loop makes them. |
| CppaFacade.ActorFacade.CreateInputBuffers | cppa/opencl/actor_facade.hpp:184-200 | One read-only host-copied buffer per input, in order, each of `sizeof(value_type) * size()` bytes modulo 2^64. The i-th appended handle is the buffer the i-th input's creation call returned. The first failure stops the chain, and no later input is appended. |
| CppaFacade.ActorFacade.AddInputArguments | cppa/opencl/actor_facade.hpp:184-200 | The input chain, with the appended handles the buffers its creation calls returned, in order. The rotated bindings follow only when every input buffer was created. |
| CppaFacade.ActorFacade.CompletePlanBindsRotated | cppa/opencl/actor_facade.hpp:170-219 | When every buffer was created, `arguments[0]` is the write-only output buffer and `arguments[i+1]` the buffer made for input i. Input i is bound to index i-1 and the output buffer to the last index. Every buffer is at `KernelIndex`. |
| CppaFacade.ActorFacade.AddArgumentsToKernel | cppa/opencl/actor_facade.hpp:202-219 | The argument vector starts empty. A write-only output buffer of `sizeof(Ret::value_type) * ret_size` bytes comes first; if it fails, nothing else happens. Then the inputs in order, then the rotated bindings. The new driver objects are those buffers, in that order, and they are the argument vector. |
| CppaFacade.ActorFacade.EnqueueImpl | cppa/opencl/actor_facade.hpp:137-156 | No command and no driver call exactly when the mapper rejects. Otherwise the arguments are planned with the corrected `ret_size`: the new driver objects are the output buffer and then the input buffers, and the command gets the promise and exactly those buffers. |
| Command.Resize | caf/opencl/command.hpp:163-165 | `std::vector::resize`: the length is n, the first elements are kept, and new ones are zero. |
| Command.Pack | caf/opencl/command.hpp:184-187 | The packed reply holds the output types in order. Element i holds result container i. |
| Command.Command.ReplyContent | caf/opencl/command.hpp:180-187 | The output mapper builds the reply when it is set. Otherwise the result containers are packed with their types. |
| Command.Command.constructor | caf/opencl/command.hpp:47-60 | Keeps handle, facade, input events, buffers, result sizes and message. There are no output events, and one reference. |
| Command.Command.EnqueueReadBuffers | caf/opencl/command.hpp:151-178 | For each container i in order: resized to `result_sizes_[i]`, then read from `output_buffers_[i]` with `sizeof * result_sizes_[i]` bytes, after the kernel. One event is appended per read, and it is the handle that read returned: the driver's new objects are exactly the reads' events, in order. A failure gives the reference back and stops, with the failing read logged. |
| Command.Command.RegisterCompletion | caf/opencl/command.hpp:99-137 | The marker waits on the output events on Apple's platform. A marker or callback failure releases the marker and the kernel event and gives the reference back. A failed marker call creates nothing. A failed callback registration releases the marker the driver created, which is the one new object. Otherwise one callback is pending, the queue is flushed, and the kernel event and the marker are appended; the marker is the handle the marker call returned. |
| Command.Command.ReadThenRegister | caf/opencl/command.hpp:99-137 | After a launch: the reads, then marker, callback and flush. A read, marker or callback failure gives the reference back and keeps the earlier output events, with one new event per completed read. On success the new objects are the read events, at their output positions, then the marker; the kernel event and the marker follow the read events. |
| Command.Command.Enqueue | caf/opencl/command.hpp:71-138 | One reference is taken for the queue. It is kept exactly when the completion callback was registered, and every failure gives it back. The launch waits on exactly the input events. A failed launch releases its event and does nothing else. On success the log is the launch, the reads, the marker, the callback and the flush. The driver's new objects are the kernel event, then each read's event, which is the output event at its position, then the marker. A failed read, marker or callback leaves the earlier output events unchanged, with one new event per completed read. |
| Command.Command.OnComplete | caf/opencl/command.hpp:180-190 | The callback appends exactly one reply, to the stored receiver with the stored id and the built content. Then it gives its reference back. |
| Command.Command.Release | caf/opencl/actor_facade.hpp:128-133 | The creator's reference is given back. |
| Command.Command.Destroy | caf/opencl/command.hpp:62-69 | Releases the input events and then the output events, in order. The first failure stops the walk, and it succeeds exactly when every release succeeded. |
| Command.Lifecycle | caf/opencl/actor_facade.hpp:128-133 | Create, enqueue, callback when registered, release. No reference is left and no callback is pending. Exactly one reply was delivered exactly when the kernel was launched. |
| Metainfo.SurvivorsInOrder | src/opencl_metainfo.cpp:112-184 | The kept devices are exactly the surviving probes' devices, in enumeration order. |
| Metainfo.SurvivorsEmpty | src/opencl_metainfo.cpp:186-192 | Nothing is kept exactly when no probe survived. |
| Metainfo.OpenclMetainfo.GetDevices | src/opencl_metainfo.cpp:27-29 | Returns the discovered devices. |
| Metainfo.OpenclMetainfo.DiscoverPlatform | src/opencl_metainfo.cpp:36-57 | Asks for the platform count and then the ids, and uses platform 0. The id list asked for has the answered count, and the platform returned is the first id the driver answered. A failure of either is thrown with its status. Nothing is created. |
| Metainfo.OpenclMetainfo.FindDevices | src/opencl_metainfo.cpp:60-84 | Asks for GPU devices first. It asks for CPU devices exactly when the GPU answer is `CL_DEVICE_NOT_FOUND`. Any other failure is thrown. On success the device list returned is the driver's answer to the id query, for the device type and the count it answered. |
| Metainfo.OpenclMetainfo.ProbeCapabilities | src/opencl_metainfo.cpp:134-182 | The calls are a prefix of the three capability queries in order: work-group size, dimension count, per-dimension sizes. A fatal probe names the last query, which failed, and every one before it succeeded. A surviving device has one size per dimension. The cached work-group size, dimension count and per-dimension sizes are exactly the driver's three answers. |
| Metainfo.OpenclMetainfo.ProbeDevice | src/opencl_metainfo.cpp:112-184 | The calls form the device's probe stretch: the name query, the queue creation, then the capability queries. A failed name query zero-fills the 128-byte name and is not fatal. The device is skipped, with the queue's status, exactly when its command queue cannot be created. A survivor is well formed after all its calls succeeded; a fatal probe names the failing query. The name is the driver's answer when the name query succeeds. A survivor keeps the queue the driver created for it and caches its capability answers. |
| Metainfo.OpenclMetainfo.ProbeAll | src/opencl_metainfo.cpp:112-184 | Probes the devices in order: the driver calls are the probes' stretches, probe j's for the j-th enumerated device. Survivors are appended in enumeration order and are well formed. The first fatal probe is thrown. |
| Metainfo.SkippedIffQueueFailed | src/opencl_metainfo.cpp:112-133 | In a probe log, the second call of probe j's stretch creates a command queue for the j-th enumerated device, and probe j skipped its device exactly when that call failed. |
| Metainfo.ProbeLogExtend | src/opencl_metainfo.cpp:112-184 | A probe log followed by the stretch of one more device's probe is the probe log of one more device. |
| Metainfo.OpenclMetainfo.Connect | src/opencl_metainfo.cpp:31-109 | Platform, devices, one context for all of them. Each failure is thrown with its status. On success the one new driver object is the context, created for the devices found, and those devices are the driver's last answer. |
| Metainfo.OpenclMetainfo.Initialize | src/opencl_metainfo.cpp:31-193 | On success there is a context and at least one device, and the devices appended are the survivors in order. With no survivor and no earlier device, it throws. Whenever probing ran, the calls after the successful `clCreateContext` are the probe log of a prefix of that context's devices. On success, or when it throws for lack of a usable device, that prefix is every device: each enumerated device was probed. |

## Left out

- The OpenCL driver is an oracle. Statuses are drawn from the OpenCL 1.2 error codes, and handles are fresh numbers. Device handle reference counting (`device.adopt`), smart-pointer releases and the retained objects are not modelled.
- One OpenCL rule is built into the oracle: asking for platform or device ids with zero entries fails. That is why platform 0 and the device list exist when discovery succeeds.
- The actor runtime (`message`, `response_promise`, mailbox delivery, `actor_cast`) is left out. A reply is an entry in the command's ghost `outbox`. The response promise is a value.
- The completion callback runs on a driver thread. Here it is `Command.Command.OnComplete`, callable once a callback is pending. Concurrency and the timing of the reads are not modelled; `results` stands for what the reads left in the containers.
- Logging, `cout` and the text of exception messages are left out. A thrown exception is an error value.
- `sizeof` of a C++ type is a parameter (`sizeOf`, `elementSize`). The byte counts `sizeof(T) * n` are computed in `size_t`, modulo 2^64 (`Types.ByteSize`). Sizes from a calculator and the default output size are `size_t` values already.
- CafFacade.ActorFacade.CreateBuffer: the model keeps the source's choices and states them as written. The `out` buffer is flagged read-only and gets a host write of its size. For `in` and `in_out`, the byte count uses `sizeof` of the declared wrapper type.
- CafFacade.ActorFacade.Enqueue: the source as written plans one buffer per input type (caf/opencl/actor_facade.hpp:165-175). The modelled enqueue uses the corrected walk over every descriptor (`PlanArguments`); see Findings.
- CafFacade.ActorFacade.Enqueue: the hand-off to `command` is left out, because the facade's six arguments do not match the command's seven-parameter constructor. The command is modelled on its own.
- A user calculator in `get_size_for_argument` that does not apply to the message is modelled as a failure (`CalculatorRejected`). The source converts the optional result to `size_t`.
- CppaFacade.ActorFacade.EnqueueImpl: plans the output buffer with the corrected `RetSize`. The source seeds `std::accumulate` with an `int` (cppa/opencl/actor_facade.hpp:143-145), so its `ret_size` differs once the work-item count does not fit an `int`. That as-written value is `RetSizeAsWritten`; see Findings.
- The cppa `command` class is not part of this model. `CppaFacade.ActorFacade.EnqueueImpl` ends with the promise and the buffers it would hand to it.
- Command.Command.Enqueue: requires `|outputTypes| <= |resultSizes|`. The caf `create_buffer` for `in_out` (caf/opencl/actor_facade.hpp:193-205) pushes no size, so for a kernel with an `in_out` output the source reads `result_sizes_[I]` past its end (caf/opencl/command.hpp:163-164), which is undefined behaviour. The model does not represent that case; `CafFacade.InOutLeavesSizesShort` states when the facade's sizes fall short.
- Command.Command.Enqueue: the `#if defined(__APPLE__)` choice of marker call is the parameter `apple`.
- `clReleaseEvent(event_k)` after a failed launch (caf/opencl/command.hpp:95), and `clReleaseEvent(marker)` after a failed marker call (caf/opencl/command.hpp:107-113), release an event the driver never set. The model releases the handle the failed call returned, which it leaves unspecified.
- Buffers and events created before a throw in the caf facade are not released in the model. In the source, buffers already pushed to `arguments` are `mem_ptr`s and are released. The events are a raw `std::vector<cl_event>` (caf/opencl/actor_facade.hpp:70) and are not. A buffer whose `clEnqueueWriteBuffer` throws is still a raw `cl_mem` (caf/opencl/actor_facade.hpp:181-188) and leaks.
- An exception from `v1callcl` inside `~command` would terminate the program. `Command.Command.Destroy` reports the first failure and stops.
- Metainfo.OpenclMetainfo.ProbeDevice: the device name only feeds log messages. The contract ties it to the driver's answer on success and to the zero fill on failure; the 128-byte truncation of the answer is the driver's.
- `caf/opencl/device.hpp` is not part of this model. Its getters read cached fields; `get_local_mem_type` returns `local_mem_size_` (device.hpp:169-171).
- `caf/opencl/spawn_cl.hpp`, `caf/opencl/metainfo.hpp`, `caf/opencl/program.hpp` and `src/program.cpp` are not part of this model: forwarding wrappers and declarations. Kernel compilation is external.

## Findings

| source | as written | input that shows it | evidently intended | confidence | as-written member | corrected member |
|---|---|---|---|---|---|---|
| cppa/opencl/actor_facade.hpp:143-145 | `std::accumulate` is seeded with the `int` literal `1`. The accumulator is therefore an `int`: every `size_t` product is narrowed to 32 bits, and the result is sign-extended into `ret_size`. | global dimensions `[65536, 32768]`: 2^31 work items give `ret_size` = 2^64 - 2^31 | the number of work items, folded in `size_t` (the caf facade seeds with `size_t{1}`) | not executed; high | CppaFacade.RetSizeAsWrittenOverflows | CppaFacade.RetSize |
| caf/opencl/actor_facade.hpp:165-175 | The recursion runs over the indices of `input_types` but takes `std::get<I>(argument_types_)`, the I-th declared descriptor. Only the first `|input_types|` descriptors get buffers, and each is paired with message element I. | descriptors `[in<T>, out<T>]`: one input type, so the `out` gets no buffer and no result size | every declared descriptor gets its buffer in declared order. `in`/`in_out` take the message elements in order, and every `out` pushes its size. | not executed; medium | CafFacade.AsWrittenSkipsTrailingOut | CafFacade.ActorFacade.PlanArguments |

Both as-written versions are modelled: `CppaFacade.RetSizeAsWritten` and
`CafFacade.ActorFacade.AddKernelArguments`. The facades' enqueue operations
use the corrected versions. In the corrected planning an `out` has no
message element to copy from, so it is only allocated
(`CafFacade.ActorFacade.CreateOutputBuffer`).
