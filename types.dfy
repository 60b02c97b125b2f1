// Shared vocabulary of the OpenCL bridge: optional values, results, handles,
// status codes, the host-side C++ types of kernel arguments and the
// actor-runtime messages that carry them.
module Types {

  datatype Option<+T> = None | Some(value: T) {
    function GetOr(default: T): T {
      match this
      case Some(v) => v
      case None => default
    }
  }

  datatype Result<+T, +E> = Ok(value: T) | Err(error: E)

  /** An opaque backend object: buffer, event, kernel, queue, context, device. */
  type Handle = nat

  /** A `cl_int` status as returned by the OpenCL driver. */
  type ClInt = int

  const CL_SUCCESS: ClInt := 0
  const CL_DEVICE_NOT_FOUND: ClInt := -1

  /** The status codes the driver may report on failure (OpenCL 1.2 uses -1 .. -68). */
  const ClErrors: set<ClInt> := set e: int | -68 <= e <= -1

  /** `size_t` is 64 bits wide on the targets the library supports. */
  const SizeTModulus: nat := 0x1_0000_0000_0000_0000

  /** A value of type `size_t`. */
  type SizeT = x: nat | x < SizeTModulus

  /** `sizeof(T) * n`, computed in `size_t`. */
  function ByteSize(elementSize: nat, count: nat): SizeT {
    (elementSize * count) % SizeTModulus
  }

  /** A compiled program with the context and command queue it is bound to. */
  datatype Program = Program(context: Handle, queue: Handle, program: Handle)

  /** Host-side C++ types, as far as the argument wrappers inspect them. */
  datatype CType =
    | Named(name: string)
    | Pointer(pointee: CType)        // T*
    | Vector(element: CType)         // std::vector<T>

  /** One element of an actor message: a typed container of values. */
  datatype Value = Value(ty: CType, elems: seq<int>)

  type Message = seq<Value>

  /** `message::match_elements<Ts...>()`: the message holds exactly the types, in order. */
  predicate MatchElements(msg: Message, types: seq<CType>) {
    |msg| == |types| && forall i :: 0 <= i < |msg| ==> msg[i].ty == types[i]
  }

  /** The address of an actor in the runtime. */
  type ActorId = nat

  /** A request id; `response_id()` turns it into the id a reply carries. */
  datatype MessageId = Request(id: nat) | Response(id: nat)

  function ResponseId(mid: MessageId): MessageId {
    Response(mid.id)
  }

  /** Where a reply goes: the replying actor, the requester and the id the reply carries. */
  datatype ResponsePromise = ResponsePromise(self: ActorId, sender: ActorId, mid: MessageId)
}
