// Argument descriptors of a kernel actor: every kernel argument is declared
// as input only (`in`), input and output (`in_out`) or output only (`out`);
// an `out` may carry a calculator that derives its size from the message.
// The type-level filters that split a descriptor list into input types,
// output types and sized arguments become functions over a sequence.
module Arguments {
  import opened Types

  /** A user size calculator applied to a message: None when its parameter types do not match the message. */
  type SizeFn = Message -> Option<SizeT>

  datatype Descriptor =
    | In(arg: CType)
    | InOut(arg: CType)
    | Out(arg: CType, fun: Option<SizeFn>)   // `out()` has no calculator, `out(F)` has F

  /** `dummy_size_calculator`: 0 for any arguments, where 0 stands for the number of work items. */
  function DummySizeCalculator(msg: Message): SizeT {
    0
  }

  /** `out::operator()`: the calculator's answer, or 0 when the wrapper has none. */
  function OutSize(d: Descriptor, msg: Message): (r: Option<SizeT>)
    requires d.Out?
    ensures d.fun.None? ==> r == Some(DummySizeCalculator(msg))
    ensures d.fun.Some? ==> r == d.fun.value(msg)
    ensures r.None? <==> d.fun.Some? && d.fun.value(msg).None?
  {
    match d.fun
    case None => Some(0)
    case Some(f) => f(msg)
  }

  /** `is_input_arg`: `in` and `in_out`. */
  predicate IsInputArg(d: Descriptor) {
    match d
    case In(_) => true
    case InOut(_) => true
    case Out(_, _) => false
  }

  /** `is_output_arg`: `out` and `in_out`. */
  predicate IsOutputArg(d: Descriptor) {
    match d
    case In(_) => false
    case InOut(_) => true
    case Out(_, _) => true
  }

  /** `requires_size_arg`: only `out`. */
  predicate RequiresSizeArg(d: Descriptor) {
    d.Out?
  }

  predicate IsInOut(d: Descriptor) {
    d.InOut?
  }

  /** How the three traits partition the descriptors. */
  lemma DescriptorRoles(d: Descriptor)
    ensures IsInputArg(d) || IsOutputArg(d)
    ensures IsInputArg(d) && IsOutputArg(d) <==> d.InOut?
    ensures IsInputArg(d) <==> d.In? || d.InOut?
    ensures IsOutputArg(d) <==> d.Out? || d.InOut?
    ensures RequiresSizeArg(d) <==> IsOutputArg(d) && !IsInputArg(d)
  {
  }

  /** `carr_to_vec`: a C array `T*` becomes `std::vector<T>`, any other type stays. */
  function CArrToVec(t: CType): (r: CType)
    ensures !r.Pointer?
    ensures !t.Pointer? ==> r == t
    ensures t.Pointer? ==> r.Vector? && r.element == t.pointee
  {
    match t
    case Pointer(e) => Vector(e)
    case _ => t
  }

  /** `extract_type`: the host type a wrapper stands for, with C arrays as vectors. */
  function ExtractType(d: Descriptor): CType {
    CArrToVec(d.arg)
  }

  /** `extract_type` treats the three wrappers alike and is idempotent on its own results. */
  lemma ExtractTypeUniform(t: CType, f: Option<SizeFn>)
    ensures ExtractType(In(t)) == ExtractType(InOut(t)) == ExtractType(Out(t, f)) == CArrToVec(t)
    ensures CArrToVec(ExtractType(In(t))) == ExtractType(In(t))
  {
  }

  /** The positions, in declared order, of the descriptors that satisfy `p` (`tl_filter`). */
  function Positions(ds: seq<Descriptor>, p: Descriptor -> bool): (r: seq<nat>)
    ensures |r| <= |ds|
    ensures forall k :: 0 <= k < |r| ==> r[k] < |ds| && p(ds[r[k]])
    ensures forall k, l :: 0 <= k < l < |r| ==> r[k] < r[l]
    ensures forall i :: 0 <= i < |ds| && p(ds[i]) ==> i in r
  {
    if ds == [] then []
    else
      var rest := Positions(ds[..|ds| - 1], p);
      if p(ds[|ds| - 1]) then rest + [|ds| - 1] else rest
  }

  /** `tl_map<tl_filter<arg_types, p>, extract_type>`, built as the descriptors are declared. */
  function FilteredTypes(ds: seq<Descriptor>, p: Descriptor -> bool): (r: seq<CType>)
    ensures |r| == |Positions(ds, p)|
  {
    if ds == [] then []
    else
      var last := ds[|ds| - 1];
      FilteredTypes(ds[..|ds| - 1], p) + (if p(last) then [ExtractType(last)] else [])
  }

  /** The k-th filtered type is the extracted type of the k-th descriptor that passes the filter. */
  lemma {:induction false} FilteredTypesAtPositions(ds: seq<Descriptor>, p: Descriptor -> bool)
    ensures forall k :: 0 <= k < |FilteredTypes(ds, p)| ==>
              FilteredTypes(ds, p)[k] == ExtractType(ds[Positions(ds, p)[k]])
  {
    if ds != [] {
      var init := ds[..|ds| - 1];
      FilteredTypesAtPositions(init, p);
      forall k | 0 <= k < |Positions(init, p)|
        ensures ds[Positions(init, p)[k]] == init[Positions(init, p)[k]]
      {
      }
    }
  }

  /** `tl_filter` seen from the front: a passing head contributes its type first, a failing one nothing. */
  lemma {:induction false} FilteredTypesCons(d: Descriptor, ds: seq<Descriptor>, p: Descriptor -> bool)
    ensures FilteredTypes([d] + ds, p) == (if p(d) then [ExtractType(d)] else []) + FilteredTypes(ds, p)
    decreases |ds|
  {
    var all := [d] + ds;
    var head := if p(d) then [ExtractType(d)] else [];
    if ds == [] {
      assert all[..0] == [] && all[0] == d;
      assert FilteredTypes(all, p) == FilteredTypes([], p) + head;
    } else {
      var init, last := ds[..|ds| - 1], ds[|ds| - 1];
      var tail := if p(last) then [ExtractType(last)] else [];
      assert all[..|all| - 1] == [d] + init;
      assert all[|all| - 1] == last;
      assert FilteredTypes(all, p) == FilteredTypes([d] + init, p) + tail;
      assert FilteredTypes(ds, p) == FilteredTypes(init, p) + tail;
      FilteredTypesCons(d, init, p);
      assert FilteredTypes(all, p) == head + FilteredTypes(init, p) + tail;
    }
  }

  /** `input_types`: what a request message must hold, in declared order. */
  function InputTypes(ds: seq<Descriptor>): seq<CType> {
    FilteredTypes(ds, IsInputArg)
  }

  /** `output_types`: what the reply carries, in declared order. */
  function OutputTypes(ds: seq<Descriptor>): seq<CType> {
    FilteredTypes(ds, IsOutputArg)
  }

  function CountIf(ds: seq<Descriptor>, p: Descriptor -> bool): nat {
    if ds == [] then 0 else CountIf(ds[..|ds| - 1], p) + (if p(ds[|ds| - 1]) then 1 else 0)
  }

  /** The filter keeps exactly the descriptors that satisfy the trait. */
  lemma {:induction false} PositionsCount(ds: seq<Descriptor>, p: Descriptor -> bool)
    ensures |Positions(ds, p)| == CountIf(ds, p)
  {
    if ds != [] {
      PositionsCount(ds[..|ds| - 1], p);
    }
  }

  /**
   * Every descriptor is either an input (and consumes one message element)
   * or requires a size, never both; outputs are the `in_out`s plus the sized ones.
   */
  lemma {:induction false} InputsAndSizedPartition(ds: seq<Descriptor>)
    ensures |InputTypes(ds)| + |Positions(ds, RequiresSizeArg)| == |ds|
    ensures |OutputTypes(ds)| == |Positions(ds, RequiresSizeArg)| + CountIf(ds, IsInOut)
  {
    PositionsCount(ds, IsInputArg);
    PositionsCount(ds, RequiresSizeArg);
    PositionsCount(ds, IsOutputArg);
    CountPartition(ds);
  }

  /** Some descriptor satisfies the trait exactly when the count is positive. */
  lemma {:induction false} CountIfPositive(ds: seq<Descriptor>, p: Descriptor -> bool)
    ensures CountIf(ds, p) > 0 <==> exists i :: 0 <= i < |ds| && p(ds[i])
  {
    if ds != [] {
      var init := ds[..|ds| - 1];
      CountIfPositive(init, p);
      assert forall i :: 0 <= i < |init| ==> init[i] == ds[i];
    }
  }

  lemma {:induction false} CountPartition(ds: seq<Descriptor>)
    ensures CountIf(ds, IsInputArg) + CountIf(ds, RequiresSizeArg) == |ds|
    ensures CountIf(ds, IsOutputArg) == CountIf(ds, RequiresSizeArg) + CountIf(ds, IsInOut)
  {
    if ds != [] {
      CountPartition(ds[..|ds| - 1]);
    }
  }
}
