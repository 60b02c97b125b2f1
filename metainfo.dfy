// Device discovery: `initialize` asks the driver for the platforms, takes
// the first one, looks for GPU devices and falls back to CPU devices only
// when no GPU is found, creates one context for the devices, and keeps
// every device for which a command queue can be created, together with its
// work-size limits. Any other driver failure is thrown, and so is finding
// no usable device.
module Metainfo {
  import opened Types
  import opened Driver

  /** The size of the buffer the device name is read into. */
  const NameBufferSize: nat := 128

  /** `device_info`: a usable device, its queue and its work-size limits. */
  datatype DeviceInfo = DeviceInfo(device: Handle, queue: Handle, maxWorkGroupSize: nat,
                                   maxWorkItemDimensions: nat, maxWorkItemsPerDim: seq<nat>)

  /** The limits agree with each other: one per-dimension size per dimension. */
  predicate WellFormedInfo(info: DeviceInfo) {
    |info.maxWorkItemsPerDim| == info.maxWorkItemDimensions
  }

  /** What `initialize` throws. */
  datatype InitError =
    | PlatformQueryFailed(status: ClInt)
    | DeviceQueryFailed(status: ClInt)
    | ContextFailed(status: ClInt)
    | CapabilityQueryFailed(param: DeviceParam, status: ClInt)
    | NoUsableDevice

  /** What probing one enumerated device gives. */
  datatype Probe = Skipped(status: ClInt) | Survived(info: DeviceInfo) | Fatal(error: InitError)

  /** The capability queries made for a device with a queue, in the order they are made. */
  function CapabilityQueries(device: Handle): seq<Call> {
    [GetDeviceInfo(device, MaxWorkGroupSize), GetDeviceInfo(device, MaxWorkItemDimensions),
     GetDeviceInfo(device, MaxWorkItemSizes)]
  }

  /** The answers of the capability queries that gave a device's limits. */
  function CapabilityAnswers(device: Handle, info: DeviceInfo): seq<Answer> {
    [Answer(GetDeviceInfo(device, MaxWorkGroupSize), [info.maxWorkGroupSize]),
     Answer(GetDeviceInfo(device, MaxWorkItemDimensions), [info.maxWorkItemDimensions]),
     Answer(GetDeviceInfo(device, MaxWorkItemSizes), info.maxWorkItemsPerDim)]
  }

  /**
   * The answers of platform discovery: the number of platforms, then that
   * many platform ids, of which `platform` is the first.
   */
  predicate PlatformAnswers(answers: seq<Answer>, platform: Handle) {
    && |answers| == 2
    && answers[0].call == GetPlatformCount && |answers[0].values| == 1
    && answers[1].call == GetPlatformIDs(answers[0].values[0])
    && |answers[1].values| == answers[0].values[0] > 0
    && platform == answers[1].values[0]
  }

  /** How many capability queries have been made once the query for `param` is made. */
  function QueryRank(param: DeviceParam): nat {
    match param
    case DeviceName => 0
    case MaxWorkGroupSize => 1
    case MaxWorkItemDimensions => 2
    case MaxWorkItemSizes => 3
  }

  /** How many driver calls probing a device makes, read off the probe's outcome. */
  function ProbeLength(p: Probe): nat {
    match p
    case Skipped(_) => 2
    case Survived(_) => 5
    case Fatal(e) => if e.CapabilityQueryFailed? then 2 + QueryRank(e.param) else 0
  }

  /**
   * The calls probing `device` makes and what they decide: the name query,
   * the command queue, whose failure alone skips the device, then the
   * capability queries in order, the first failing one being fatal.
   */
  ghost predicate ProbeSegment(seg: seq<Entry>, ctx: Handle, device: Handle, p: Probe) {
    && |seg| == ProbeLength(p) && |seg| >= 2
    && seg[0].call == GetDeviceInfo(device, DeviceName)
    && seg[1].call == CreateCommandQueue(ctx, device)
    && (p.Skipped? <==> seg[1].status != CL_SUCCESS)
    && (p.Skipped? ==> p.status == seg[1].status)
    && Calls(seg[2..]) == CapabilityQueries(device)[..|seg| - 2]
    && (p.Survived? ==> p.info.device == device && WellFormedInfo(p.info) && AllSucceeded(seg[1..]))
    && (p.Fatal? ==> p.error.CapabilityQueryFailed? && AllSucceeded(seg[1..|seg| - 1]) &&
                     p.error.status != CL_SUCCESS && p.error.status == seg[|seg| - 1].status &&
                     seg[|seg| - 1].call == GetDeviceInfo(device, p.error.param))
  }

  /** The number of calls the probes `ps` make together. */
  function LogLength(ps: seq<Probe>): nat {
    if ps == [] then 0 else LogLength(ps[..|ps| - 1]) + ProbeLength(ps[|ps| - 1])
  }

  /** The stretch of `entries` that probe j's calls occupy, or empty when the entries end before it does. */
  function Stretch(entries: seq<Entry>, ps: seq<Probe>, j: nat): (r: seq<Entry>)
    requires j < |ps|
    ensures |r| == 0 || |r| == ProbeLength(ps[j])
  {
    var start := LogLength(ps[..j]);
    if start + ProbeLength(ps[j]) <= |entries| then entries[start..start + ProbeLength(ps[j])] else []
  }

  /** The calls of the probes `ps` of the first `|ps|` enumerated devices, one stretch per probe, in order. */
  ghost predicate ProbeLog(entries: seq<Entry>, ctx: Handle, enumerated: seq<Handle>, ps: seq<Probe>)
    requires |ps| <= |enumerated|
  {
    && |entries| == LogLength(ps)
    && forall j {:trigger Stretch(entries, ps, j)} :: 0 <= j < |ps| ==> ProbeSegment(Stretch(entries, ps, j), ctx, enumerated[j], ps[j])
  }

  /** Appending the calls of one more probe leaves the earlier probes' stretches where they were. */
  lemma StretchAppendEarlier(entries: seq<Entry>, seg: seq<Entry>, ps: seq<Probe>, p: Probe, j: nat)
    requires j < |ps| && Stretch(entries, ps, j) != []
    ensures Stretch(entries + seg, ps + [p], j) == Stretch(entries, ps, j)
  {
    var qs := ps + [p];
    assert qs[..j] == ps[..j] && qs[j] == ps[j];
    var start, len := LogLength(ps[..j]), ProbeLength(ps[j]);
    assert (entries + seg)[start..start + len] == entries[start..start + len];
  }

  /** The appended calls are the new probe's stretch. */
  lemma StretchAppendLast(entries: seq<Entry>, seg: seq<Entry>, ps: seq<Probe>, p: Probe)
    requires |entries| == LogLength(ps) && |seg| == ProbeLength(p)
    ensures Stretch(entries + seg, ps + [p], |ps|) == seg
  {
    var qs, all := ps + [p], entries + seg;
    assert qs[..|ps|] == ps && qs[|ps|] == p;
    assert LogLength(qs[..|ps|]) + ProbeLength(qs[|ps|]) == |all|;
    assert all[|entries|..] == seg;
    assert all[|entries|..|all|] == all[|entries|..];
  }

  /** One more probe extends the probe log by its own stretch. */
  lemma ProbeLogExtend(entries: seq<Entry>, seg: seq<Entry>, ctx: Handle, enumerated: seq<Handle>,
                       ps: seq<Probe>, p: Probe)
    requires |ps| < |enumerated| && ProbeLog(entries, ctx, enumerated, ps)
    requires ProbeSegment(seg, ctx, enumerated[|ps|], p)
    ensures ProbeLog(entries + seg, ctx, enumerated, ps + [p])
  {
    var qs := ps + [p];
    assert qs[..|ps|] == ps;
    forall j | 0 <= j < |qs|
      ensures ProbeSegment(Stretch(entries + seg, qs, j), ctx, enumerated[j], qs[j])
    {
      if j < |ps| {
        StretchAppendEarlier(entries, seg, ps, p, j);
      } else {
        StretchAppendLast(entries, seg, ps, p);
      }
    }
  }

  /**
   * Device j was skipped exactly when the command queue for the j-th
   * enumerated device could not be created, which is the second call of
   * its stretch of the log.
   */
  lemma SkippedIffQueueFailed(entries: seq<Entry>, ctx: Handle, enumerated: seq<Handle>, ps: seq<Probe>, j: nat)
    requires |ps| <= |enumerated| && ProbeLog(entries, ctx, enumerated, ps) && j < |ps|
    ensures LogLength(ps[..j]) + 1 < |entries|
    ensures entries[LogLength(ps[..j]) + 1].call == CreateCommandQueue(ctx, enumerated[j])
    ensures ps[j].Skipped? <==> entries[LogLength(ps[..j]) + 1].status != CL_SUCCESS
  {
    var seg := Stretch(entries, ps, j);
    assert ProbeSegment(seg, ctx, enumerated[j], ps[j]);
    assert seg[1] == entries[LogLength(ps[..j]) + 1];
  }

  /** The name query and a queue that could not be created make up a skipped probe's stretch. */
  lemma ProbeSegmentOfSkipped(head: seq<Entry>, ctx: Handle, device: Handle, status: ClInt)
    requires |head| == 2 && head[0].call == GetDeviceInfo(device, DeviceName)
    requires head[1] == Entry(CreateCommandQueue(ctx, device), status) && status != CL_SUCCESS
    ensures ProbeSegment(head, ctx, device, Skipped(status))
  {
    assert Calls(head[2..]) == [];
  }

  /** The name query and a created queue, then a capability run, make up a probe's stretch. */
  lemma ProbeSegmentOfCapabilities(head: seq<Entry>, tail: seq<Entry>, ctx: Handle, device: Handle, p: Probe)
    requires |head| == 2 && head[0].call == GetDeviceInfo(device, DeviceName)
    requires head[1] == Entry(CreateCommandQueue(ctx, device), CL_SUCCESS)
    requires p.Survived? || p.Fatal?
    requires 0 < |tail| <= 3 && Calls(tail) == CapabilityQueries(device)[..|tail|]
    requires p.Survived? ==> p.info.device == device && WellFormedInfo(p.info) && |tail| == 3 && AllSucceeded(tail)
    requires p.Fatal? ==> p.error.CapabilityQueryFailed? && p.error.status != CL_SUCCESS &&
                          |tail| == QueryRank(p.error.param) && AllSucceeded(tail[..|tail| - 1]) &&
                          p.error.status == tail[|tail| - 1].status &&
                          tail[|tail| - 1].call == GetDeviceInfo(device, p.error.param)
    ensures ProbeSegment(head + tail, ctx, device, p)
  {
    var seg := head + tail;
    assert seg[2..] == tail;
    assert seg[1..|seg| - 1] == [head[1]] + tail[..|tail| - 1];
    assert seg[1..] == [head[1]] + tail;
  }

  /** The devices kept from a run of probes, in probing order. */
  function Survivors(ps: seq<Probe>): (r: seq<DeviceInfo>)
    ensures |r| <= |ps|
  {
    if ps == [] then []
    else Survivors(ps[..|ps| - 1]) + (if ps[|ps| - 1].Survived? then [ps[|ps| - 1].info] else [])
  }

  /** The probes that kept their device, in increasing order. */
  function SurvivorPositions(ps: seq<Probe>): (r: seq<nat>)
    ensures forall k :: 0 <= k < |r| ==> r[k] < |ps| && ps[r[k]].Survived?
    ensures forall k, l :: 0 <= k < l < |r| ==> r[k] < r[l]
    ensures forall j :: 0 <= j < |ps| && ps[j].Survived? ==> j in r
  {
    if ps == [] then []
    else
      var rest := SurvivorPositions(ps[..|ps| - 1]);
      if ps[|ps| - 1].Survived? then rest + [|ps| - 1] else rest
  }

  /**
   * The kept devices are exactly the surviving probes' devices, in the order
   * the probes ran: the k-th kept device is the k-th survivor.
   */
  lemma {:induction false} SurvivorsInOrder(ps: seq<Probe>)
    ensures |Survivors(ps)| == |SurvivorPositions(ps)|
    ensures forall k :: 0 <= k < |Survivors(ps)| ==> Survivors(ps)[k] == ps[SurvivorPositions(ps)[k]].info
  {
    if ps != [] {
      var init, last := ps[..|ps| - 1], ps[|ps| - 1];
      SurvivorsInOrder(init);
      var kept, at := Survivors(init), SurvivorPositions(init);
      if last.Survived? {
        assert Survivors(ps) == kept + [last.info];
        assert SurvivorPositions(ps) == at + [|ps| - 1];
      } else {
        assert Survivors(ps) == kept;
        assert SurvivorPositions(ps) == at;
      }
      forall k | 0 <= k < |kept| ensures kept[k] == ps[at[k]].info {
        assert init[at[k]] == ps[at[k]];
      }
    }
  }

  /** Without a surviving probe nothing is kept, and every survivor is kept. */
  lemma {:induction false} SurvivorsEmpty(ps: seq<Probe>)
    ensures Survivors(ps) == [] <==> forall j :: 0 <= j < |ps| ==> !ps[j].Survived?
  {
    if ps != [] {
      var init := ps[..|ps| - 1];
      SurvivorsEmpty(init);
      assert forall j :: 0 <= j < |init| ==> init[j] == ps[j];
    }
  }

  class OpenclMetainfo {
    var context: Option<Handle>
    var devices: seq<DeviceInfo>
    /** The probes of the last discovery, one per enumerated device, in enumeration order. */
    ghost var probes: seq<Probe>

    constructor ()
      ensures context.None? && devices == [] && probes == []
    {
      context := None;
      devices := [];
      probes := [];
    }

    /** `get_devices`: the discovered devices, by value. */
    function GetDevices(): (r: seq<DeviceInfo>)
      reads this
      ensures |r| == |devices| && forall i :: 0 <= i < |r| ==> r[i] == devices[i]
    {
      devices
    }

    /** The platforms: their number, then their ids; either failure is thrown. */
    static method DiscoverPlatform(driver: Driver) returns (r: Result<Handle, InitError>)
      modifies driver
      ensures driver.created == old(driver.created)
      ensures r.Ok? ==> |driver.answers| >= |old(driver.answers)| &&
                        driver.answers[..|old(driver.answers)|] == old(driver.answers) &&
                        PlatformAnswers(driver.answers[|old(driver.answers)|..], r.value)
      ensures |driver.log| > |old(driver.log)| && driver.log[..|old(driver.log)|] == old(driver.log)
      ensures driver.log[|old(driver.log)|].call == GetPlatformCount
      ensures r.Ok? ==> |driver.log| == |old(driver.log)| + 2 && AllSucceeded(driver.log[|old(driver.log)|..]) &&
                        driver.log[|old(driver.log)| + 1].call.GetPlatformIDs? &&
                        driver.log[|old(driver.log)| + 1].call.count > 0
      ensures r.Err? ==> r.error.PlatformQueryFailed? && r.error.status != CL_SUCCESS &&
                         r.error.status == driver.log[|driver.log| - 1].status
    {
      var err, count := driver.Query(GetPlatformCount);
      if err != CL_SUCCESS {
        return Err(PlatformQueryFailed(err));
      }
      var ids;
      err, ids := driver.QueryList(GetPlatformIDs(count), count);
      if err != CL_SUCCESS {
        return Err(PlatformQueryFailed(err));
      }
      r := Ok(ids[0]);
      assert driver.answers[|old(driver.answers)|..] == [Answer(GetPlatformCount, [count]), Answer(GetPlatformIDs(count), ids)];
    }

    /**
     * The devices of the platform: GPU devices first; CPU devices are asked
     * for only when the driver answers that no GPU device exists. Any other
     * failure is thrown.
     */
    static method FindDevices(driver: Driver, platform: Handle) returns (r: Result<(DeviceType, seq<Handle>), InitError>)
      modifies driver
      ensures driver.created == old(driver.created)
      ensures r.Ok? ==> driver.answers == old(driver.answers) +
                          [Answer(GetDeviceCount(platform, r.value.0), [|r.value.1|]),
                           Answer(GetDeviceIDs(platform, r.value.0, |r.value.1|), r.value.1)]
      ensures |driver.log| > |old(driver.log)| && driver.log[..|old(driver.log)|] == old(driver.log)
      ensures var t0 := |old(driver.log)|;
              && driver.log[t0].call == GetDeviceCount(platform, Gpu)
              && (driver.log[t0].status == CL_DEVICE_NOT_FOUND <==>
                    |driver.log| > t0 + 1 && driver.log[t0 + 1].call == GetDeviceCount(platform, Cpu))
              && (driver.log[t0].status != CL_SUCCESS && driver.log[t0].status != CL_DEVICE_NOT_FOUND ==>
                    r == Err(DeviceQueryFailed(driver.log[t0].status)) && |driver.log| == t0 + 1)
              && (r.Ok? ==> r.value.0 == (if driver.log[t0].status == CL_DEVICE_NOT_FOUND then Cpu else Gpu))
      ensures r.Ok? ==> |r.value.1| > 0 && AllSucceeded(driver.log[|driver.log| - 1..]) &&
                        driver.log[|driver.log| - 1].call == GetDeviceIDs(platform, r.value.0, |r.value.1|)
      ensures r.Err? ==> r.error.DeviceQueryFailed? && r.error.status != CL_SUCCESS &&
                         r.error.status == driver.log[|driver.log| - 1].status
    {
      ghost var t0 := |driver.log|;
      var deviceType := Gpu;
      var err, count := driver.Query(GetDeviceCount(platform, Gpu));
      if err == CL_DEVICE_NOT_FOUND {
        deviceType := Cpu;
        err, count := driver.Query(GetDeviceCount(platform, Cpu));
      }
      if err != CL_SUCCESS {
        return Err(DeviceQueryFailed(err));
      }
      var ids;
      err, ids := driver.QueryList(GetDeviceIDs(platform, deviceType, count), count);
      if err != CL_SUCCESS {
        return Err(DeviceQueryFailed(err));
      }
      r := Ok((deviceType, ids));
    }

    /**
     * The limits of a device that has a queue: its work-group size, its
     * number of work-item dimensions and its per-dimension sizes. Each
     * failure is fatal.
     */
    static method ProbeCapabilities(driver: Driver, device: Handle, queue: Handle) returns (p: Probe)
      modifies driver
      ensures p.Survived? || p.Fatal?
      ensures driver.created == old(driver.created)
      ensures |old(driver.log)| < |driver.log| <= |old(driver.log)| + 3 && driver.log[..|old(driver.log)|] == old(driver.log)
      ensures Calls(driver.log[|old(driver.log)|..]) == CapabilityQueries(device)[..|driver.log| - |old(driver.log)|]
      ensures p.Survived? ==> p.info.device == device && p.info.queue == queue && WellFormedInfo(p.info) &&
                              |driver.log| == |old(driver.log)| + 3 && AllSucceeded(driver.log[|old(driver.log)|..])
      ensures p.Survived? ==> driver.answers == old(driver.answers) + CapabilityAnswers(device, p.info)
      ensures |driver.answers| >= |old(driver.answers)| && driver.answers[..|old(driver.answers)|] == old(driver.answers)
      ensures p.Fatal? ==> p.error.CapabilityQueryFailed? && p.error.status != CL_SUCCESS &&
                           |driver.log| == |old(driver.log)| + QueryRank(p.error.param) &&
                           AllSucceeded(driver.log[|old(driver.log)|..|driver.log| - 1]) &&
                           p.error.status == driver.log[|driver.log| - 1].status &&
                           driver.log[|driver.log| - 1].call == GetDeviceInfo(device, p.error.param)
    {
      ghost var queries := CapabilityQueries(device);
      var err, maxWorkGroupSize := driver.Query(GetDeviceInfo(device, MaxWorkGroupSize));
      ghost var e0 := driver.log[|driver.log| - 1];
      assert driver.log[|old(driver.log)|..] == [e0];
      if err != CL_SUCCESS {
        return Fatal(CapabilityQueryFailed(MaxWorkGroupSize, err));
      }
      var dims;
      err, dims := driver.Query(GetDeviceInfo(device, MaxWorkItemDimensions));
      ghost var e1 := driver.log[|driver.log| - 1];
      assert driver.log[|old(driver.log)|..] == [e0, e1];
      if err != CL_SUCCESS {
        return Fatal(CapabilityQueryFailed(MaxWorkItemDimensions, err));
      }
      var perDim;
      err, perDim := driver.QueryList(GetDeviceInfo(device, MaxWorkItemSizes), dims);
      ghost var e2 := driver.log[|driver.log| - 1];
      assert driver.log[|old(driver.log)|..] == [e0, e1, e2];
      assert queries[..3] == queries;
      if err != CL_SUCCESS {
        return Fatal(CapabilityQueryFailed(MaxWorkItemSizes, err));
      }
      p := Survived(DeviceInfo(device, queue, maxWorkGroupSize, dims, perDim));
    }

    /**
     * One enumerated device: its name (zero-filled when the query fails,
     * which is not fatal), its command queue (a failure skips the device),
     * then its limits.
     */
    static method ProbeDevice(driver: Driver, ctx: Handle, device: Handle) returns (p: Probe, name: seq<int>)
      modifies driver
      ensures |name| == NameBufferSize
      ensures |driver.log| >= |old(driver.log)| && driver.log[..|old(driver.log)|] == old(driver.log)
      ensures ProbeSegment(driver.log[|old(driver.log)|..], ctx, device, p)
      ensures driver.log[|old(driver.log)|].status != CL_SUCCESS ==> name == seq(NameBufferSize, _ => 0)
      ensures driver.log[|old(driver.log)|].status == CL_SUCCESS ==>
                |driver.answers| > |old(driver.answers)| &&
                driver.answers[|old(driver.answers)|].call == GetDeviceInfo(device, DeviceName) &&
                driver.answers[|old(driver.answers)|].values == name
      ensures p.Survived? ==> |driver.answers| >= 3 &&
                              driver.answers[|driver.answers| - 3..] == CapabilityAnswers(device, p.info)
      ensures p.Skipped? ==> driver.created == old(driver.created)
      ensures p.Survived? ==> driver.created == old(driver.created) + [Creation(CreateCommandQueue(ctx, device), p.info.queue)]
    {
      var err, buffer := driver.QueryList(GetDeviceInfo(device, DeviceName), NameBufferSize);
      name := if err == CL_SUCCESS then buffer else seq(NameBufferSize, _ => 0);
      ghost var named, t0 := driver.log, |old(driver.log)|;
      p := ProbeQueue(driver, ctx, device, named[t0]);
      assert driver.log[..|named|] == named;
      assert driver.log[t0..] == [named[t0]] + driver.log[|named|..];
    }

    /**
     * The rest of probing a device once its name was asked for
     * (`nameEntry`): the command queue, whose failure skips the device,
     * then its limits.
     */
    static method ProbeQueue(driver: Driver, ctx: Handle, device: Handle, ghost nameEntry: Entry) returns (p: Probe)
      requires nameEntry.call == GetDeviceInfo(device, DeviceName)
      modifies driver
      ensures |driver.log| >= |old(driver.log)| && driver.log[..|old(driver.log)|] == old(driver.log)
      ensures ProbeSegment([nameEntry] + driver.log[|old(driver.log)|..], ctx, device, p)
      ensures |driver.answers| >= |old(driver.answers)| && driver.answers[..|old(driver.answers)|] == old(driver.answers)
      ensures p.Survived? ==> driver.answers == old(driver.answers) + CapabilityAnswers(device, p.info)
      ensures p.Skipped? ==> driver.created == old(driver.created)
      ensures p.Survived? ==> driver.created == old(driver.created) + [Creation(CreateCommandQueue(ctx, device), p.info.queue)]
    {
      var err, queue := driver.Create(CreateCommandQueue(ctx, device));
      ghost var queued := driver.log;
      ghost var head := [nameEntry, queued[|queued| - 1]];
      if err != CL_SUCCESS {
        p := Skipped(err);
        ProbeSegmentOfSkipped(head, ctx, device, err);
        assert [nameEntry] + driver.log[|old(driver.log)|..] == head;
        return;
      }
      p := ProbeCapabilities(driver, device, queue);
      ghost var tail := driver.log[|queued|..];
      assert tail[..|tail| - 1] == driver.log[|queued|..|driver.log| - 1];
      ProbeSegmentOfCapabilities(head, tail, ctx, device, p);
      assert driver.log[..|queued|] == queued;
      assert [nameEntry] + driver.log[|old(driver.log)|..] == head + tail;
    }

    /** Probing the next enumerated device extends the probe log by that probe's stretch. */
    static method ProbeNext(driver: Driver, ctx: Handle, enumerated: seq<Handle>, i: nat,
                            ghost ps: seq<Probe>, ghost t0: nat) returns (p: Probe)
      requires i == |ps| < |enumerated| && t0 <= |driver.log| && ProbeLog(driver.log[t0..], ctx, enumerated, ps)
      modifies driver
      ensures |driver.log| >= |old(driver.log)| && driver.log[..|old(driver.log)|] == old(driver.log)
      ensures ProbeLog(driver.log[t0..], ctx, enumerated, ps + [p])
      ensures p.Survived? ==> p.info.device == enumerated[|ps|] && WellFormedInfo(p.info)
      ensures p.Fatal? ==> p.error.CapabilityQueryFailed?
    {
      ghost var before := driver.log;
      var name;
      p, name := ProbeDevice(driver, ctx, enumerated[i]);
      ProbeLogExtend(before[t0..], driver.log[|before|..], ctx, enumerated, ps, p);
      assert driver.log[t0..] == before[t0..] + driver.log[|before|..];
    }

    /**
     * The loop over the enumerated devices: each probe's survivor is
     * appended to the devices; a fatal probe is thrown, keeping what was
     * appended before it.
     */
    method ProbeAll(driver: Driver, ctx: Handle, enumerated: seq<Handle>) returns (r: Option<InitError>)
      modifies this`devices, this`probes, driver
      ensures |probes| <= |enumerated|
      ensures devices == old(devices) + Survivors(probes)
      ensures forall j :: 0 <= j < |probes| && probes[j].Survived? ==>
                probes[j].info.device == enumerated[j] && WellFormedInfo(probes[j].info)
      ensures forall k :: |old(devices)| <= k < |devices| ==> WellFormedInfo(devices[k])
      ensures r.None? <==> |probes| == |enumerated| && forall j :: 0 <= j < |probes| ==> !probes[j].Fatal?
      ensures r.Some? ==> r.value.CapabilityQueryFailed?
      ensures r.Some? ==> |probes| > 0 && probes[|probes| - 1] == Fatal(r.value) &&
                          forall j :: 0 <= j < |probes| - 1 ==> !probes[j].Fatal?
      ensures |driver.log| >= |old(driver.log)| && driver.log[..|old(driver.log)|] == old(driver.log)
      ensures ProbeLog(driver.log[|old(driver.log)|..], ctx, enumerated, probes)
    {
      ghost var t0 := |driver.log|;
      ghost var ps: seq<Probe> := [];
      var kept: seq<DeviceInfo> := [];
      var i := 0;
      while i < |enumerated|
        invariant 0 <= i <= |enumerated| && |ps| == i
        invariant kept == Survivors(ps) && devices == old(devices)
        invariant forall k :: 0 <= k < |kept| ==> WellFormedInfo(kept[k])
        invariant forall j :: 0 <= j < i && ps[j].Survived? ==>
                    ps[j].info.device == enumerated[j] && WellFormedInfo(ps[j].info)
        invariant forall j :: 0 <= j < i ==> !ps[j].Fatal?
        invariant |driver.log| >= t0 && driver.log[..t0] == old(driver.log)
        invariant ProbeLog(driver.log[t0..], ctx, enumerated, ps)
      {
        ghost var before := driver.log;
        var p := ProbeNext(driver, ctx, enumerated, i, ps, t0);
        assert driver.log[..t0] == before[..t0];
        ps := ps + [p];
        assert ps[..|ps| - 1] == ps[..i];
        if p.Fatal? {
          assert Survivors(ps) == kept;
          probes := ps;
          devices := devices + kept;
          return Some(p.error);
        }
        if p.Survived? {
          kept := kept + [p.info];
        } else {
          assert Survivors(ps) == kept;
        }
        i := i + 1;
      }
      probes := ps;
      devices := devices + kept;
      r := None;
    }

    /**
     * The first steps of `initialize`: the platform, its devices, and one
     * context for all of them.
     */
    static method Connect(driver: Driver) returns (r: Result<(Handle, seq<Handle>), InitError>)
      modifies driver
      ensures |driver.log| > |old(driver.log)| && driver.log[..|old(driver.log)|] == old(driver.log)
      ensures driver.log[|old(driver.log)|].call == GetPlatformCount
      ensures r.Ok? ==> driver.log[|driver.log| - 1] == Entry(CreateContext(r.value.1), CL_SUCCESS)
      ensures r.Ok? ==> driver.created == old(driver.created) + [Creation(CreateContext(r.value.1), r.value.0)]
      ensures r.Ok? ==> |driver.answers| > |old(driver.answers)| &&
                        driver.answers[|driver.answers| - 1].call.GetDeviceIDs? &&
                        driver.answers[|driver.answers| - 1].values == r.value.1
      ensures r.Err? ==> driver.created == old(driver.created)
      ensures r.Err? ==> r.error.PlatformQueryFailed? || r.error.DeviceQueryFailed? || r.error.ContextFailed?
      ensures r.Err? ==> r.error.status != CL_SUCCESS && r.error.status == driver.log[|driver.log| - 1].status
      ensures r.Err? && r.error.ContextFailed? ==> driver.log[|driver.log| - 1].call.CreateContext?
    {
      var platform := DiscoverPlatform(driver);
      if platform.Err? {
        return Err(platform.error);
      }
      ghost var t0, discovered := |old(driver.log)|, driver.log;
      var found := FindDevices(driver, platform.value);
      assert driver.log[..|discovered|] == discovered && driver.log[t0] == discovered[t0];
      if found.Err? {
        return Err(found.error);
      }
      ghost var listed := driver.log;
      var err, ctx := driver.Create(CreateContext(found.value.1));
      assert driver.log[..|listed|] == listed && driver.log[t0] == listed[t0];
      if err != CL_SUCCESS {
        return Err(ContextFailed(err));
      }
      r := Ok((ctx, found.value.1));
    }

    /**
     * `initialize`: platform, devices, context, probes; throws when no
     * device is usable. Devices found usable are appended to `devices` in
     * enumeration order.
     */
    method Initialize(driver: Driver) returns (r: Option<InitError>)
      modifies this, driver
      ensures |driver.log| > |old(driver.log)| && driver.log[..|old(driver.log)|] == old(driver.log)
      ensures driver.log[|old(driver.log)|].call == GetPlatformCount
      ensures r.None? ==> |devices| > 0 && context.Some? && devices == old(devices) + Survivors(probes) &&
                          forall j :: 0 <= j < |probes| ==> !probes[j].Fatal?
      ensures r == Some(NoUsableDevice) ==> old(devices) == [] && devices == [] &&
                                            forall j :: 0 <= j < |probes| ==> !probes[j].Survived?
      ensures |devices| >= |old(devices)| && devices[..|old(devices)|] == old(devices)
      ensures forall j :: |old(devices)| <= j < |devices| ==> WellFormedInfo(devices[j])
      ensures r.None? || r.value.CapabilityQueryFailed? || r.value.NoUsableDevice? ==>
                context.Some? &&
                exists t :: |old(driver.log)| < t <= |driver.log| &&
                            driver.log[t - 1].call.CreateContext? && driver.log[t - 1].status == CL_SUCCESS &&
                            |probes| <= |driver.log[t - 1].call.devices| &&
                            ((r.None? || r.value.NoUsableDevice?) ==> |probes| == |driver.log[t - 1].call.devices|) &&
                            ProbeLog(driver.log[t..], context.value, driver.log[t - 1].call.devices, probes)
    {
      var connected := Connect(driver);
      if connected.Err? {
        if connected.error.ContextFailed? {
          context := None;
        }
        return Some(connected.error);
      }
      var (ctx, enumerated) := connected.value;
      context := Some(ctx);
      ghost var t0, connectedLog := |old(driver.log)|, driver.log;
      r := ProbeAll(driver, ctx, enumerated);
      assert driver.log[..|connectedLog|] == connectedLog && driver.log[t0] == connectedLog[t0];
      assert driver.log[|connectedLog| - 1] == Entry(CreateContext(enumerated), CL_SUCCESS);
      assert devices[..|old(devices)|] == old(devices);
      if r.Some? {
        return;
      }
      if devices == [] {
        SurvivorsEmpty(probes);
        return Some(NoUsableDevice);
      }
    }
  }
}
