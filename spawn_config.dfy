// The launch geometry of a kernel actor and the checks both facades apply
// to it before they create the kernel: at least one global dimension, and
// offsets and local dimensions each either absent or one per dimension.
module SpawnConfig {
  import opened Types
  import Arith

  datatype SpawnConfig = SpawnConfig(dimensions: seq<SizeT>, offsets: seq<SizeT>, localDimensions: seq<SizeT>)

  datatype ConfigError =
    | NoGlobalDimension                // "OpenCL kernel needs at least 1 global dimension."
    | SizeMismatch(vectorName: string) // "<name> vector is not empty, but its size differs ..."

  /** Why creating a facade failed: a rejected geometry or a kernel the driver would not create. */
  datatype SpawnError = InvalidConfig(reason: ConfigError) | KernelError(status: ClInt)

  /** The geometry a kernel can be launched with. */
  predicate WellFormed(dims: seq<SizeT>, offsets: seq<SizeT>, local: seq<SizeT>) {
    && |dims| > 0
    && (|offsets| == 0 || |offsets| == |dims|)
    && (|local| == 0 || |local| == |dims|)
  }

  /** The `check_vec` lambda: an empty vector is accepted, a non-empty one must match the dimensions. */
  function CheckVec(vec: seq<SizeT>, dims: seq<SizeT>, name: string): (r: Option<ConfigError>)
    ensures r.None? <==> |vec| == 0 || |vec| == |dims|
    ensures r.Some? ==> r.value == SizeMismatch(name)
  {
    if |vec| != 0 && |vec| != |dims| then Some(SizeMismatch(name)) else None
  }

  /**
   * The checks of `create`, in the order the source makes them: dimensions
   * first, then offsets, then local dimensions. The first failing check wins.
   */
  function Validate(dims: seq<SizeT>, offsets: seq<SizeT>, local: seq<SizeT>): (r: Option<ConfigError>)
    ensures r.None? <==> WellFormed(dims, offsets, local)
    ensures r == Some(NoGlobalDimension) <==> |dims| == 0
    ensures r == Some(SizeMismatch("offsets")) <==>
              |dims| > 0 && |offsets| != 0 && |offsets| != |dims|
    ensures r == Some(SizeMismatch("local dimensions")) <==>
              |dims| > 0 && (|offsets| == 0 || |offsets| == |dims|) && |local| != 0 && |local| != |dims|
  {
    if |dims| == 0 then Some(NoGlobalDimension)
    else if CheckVec(offsets, dims, "offsets").Some? then CheckVec(offsets, dims, "offsets")
    else CheckVec(local, dims, "local dimensions")
  }

  function ValidateConfig(cfg: SpawnConfig): Option<ConfigError> {
    Validate(cfg.dimensions, cfg.offsets, cfg.localDimensions)
  }

  /** The number of work items: the product of the global dimensions, starting from 1. */
  function WorkItems(dims: seq<nat>): nat {
    if dims == [] then 1 else dims[0] * WorkItems(dims[1..])
  }

  /** `std::accumulate(dims, acc, std::multiplies<size_t>{})`: a left fold whose every step wraps at 2^64. */
  function AccumulateSizeT(dims: seq<SizeT>, acc: SizeT): SizeT {
    if dims == [] then acc else AccumulateSizeT(dims[1..], (acc * dims[0]) % SizeTModulus)
  }

  /** The facade's `default_output_size_`: the fold started from `size_t{1}`. */
  function DefaultOutputSize(dims: seq<SizeT>): SizeT {
    AccumulateSizeT(dims, 1)
  }

  /** Wrapping at every step equals wrapping the exact product once. */
  lemma {:induction false} AccumulateSizeTIsWrappedProduct(dims: seq<SizeT>, acc: SizeT)
    ensures AccumulateSizeT(dims, acc) == (acc * WorkItems(dims)) % SizeTModulus
  {
    if dims == [] {
    } else {
      var d, rest := dims[0], dims[1..];
      var w := WorkItems(rest);
      assert WorkItems(dims) == d * w;
      AccumulateSizeTIsWrappedProduct(rest, (acc * d) % SizeTModulus);
      Arith.ModMulStep(acc, d, w, SizeTModulus);
    }
  }

  /**
   * The default output size is the number of work items, reduced modulo 2^64;
   * it is the exact number of work items whenever that fits a `size_t`.
   */
  lemma DefaultOutputSizeIsWorkItems(dims: seq<SizeT>)
    ensures DefaultOutputSize(dims) == WorkItems(dims) % SizeTModulus
    ensures WorkItems(dims) < SizeTModulus ==> DefaultOutputSize(dims) == WorkItems(dims)
  {
    AccumulateSizeTIsWrappedProduct(dims, 1);
    var w := WorkItems(dims);
    assert 1 * w == w;
    if w < SizeTModulus {
      Arith.ModUnique(w, SizeTModulus, 0, w);
    }
  }
}
