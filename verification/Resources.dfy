/** Worker resources: what is requested, what is available, and reserving one out of the other. */
module Resources {
  import opened Prelude

  datatype Request = Request(cpuCores: U32, ramBytes: U64, gpuCount: U32, vramPerDevice: U64)
  datatype Capacity = Capacity(cpuCores: U32, ramBytes: U64, gpuCount: U32, vramPerDevice: U64)

  datatype ValidationError = ZeroCpuCores | InconsistentGpuResources | ArithmeticOverflow

  /** Devices and their memory are both there or both absent, and the total fits 64 bits. */
  predicate ConsistentGpu(count: U32, vram: U64) {
    (count == 0 <==> vram == 0) && count * vram < U64_BOUND
  }

  function ValidateGpu(count: U32, vram: U64): Option<ValidationError> {
    if (count == 0) != (vram == 0) then Some(InconsistentGpuResources)
    else if count * vram >= U64_BOUND then Some(ArithmeticOverflow)
    else None
  }

  function NewCapacity(cpuCores: U32, ramBytes: U64, gpuCount: U32, vram: U64): (r: Result<Capacity, ValidationError>)
    ensures r.Ok? <==> ConsistentGpu(gpuCount, vram)
    ensures r.Ok? ==> r.value == Capacity(cpuCores, ramBytes, gpuCount, vram)
    ensures r == Err(InconsistentGpuResources) <==> (gpuCount == 0) != (vram == 0)
  {
    match ValidateGpu(gpuCount, vram)
    case Some(e) => Err(e)
    case None => Ok(Capacity(cpuCores, ramBytes, gpuCount, vram))
  }

  function NewRequest(cpuCores: U32, ramBytes: U64, gpuCount: U32, vram: U64): (r: Result<Request, ValidationError>)
    ensures r.Ok? <==> cpuCores > 0 && ConsistentGpu(gpuCount, vram)
    ensures r.Ok? ==> r.value == Request(cpuCores, ramBytes, gpuCount, vram)
    ensures r == Err(ZeroCpuCores) <==> cpuCores == 0
    ensures r == Err(InconsistentGpuResources) <==> cpuCores > 0 && (gpuCount == 0) != (vram == 0)
  {
    if cpuCores == 0 then Err(ZeroCpuCores)
    else
      match ValidateGpu(gpuCount, vram)
      case Some(e) => Err(e)
      case None => Ok(Request(cpuCores, ramBytes, gpuCount, vram))
  }

  predicate Fits(c: Capacity, r: Request) {
    c.cpuCores >= r.cpuCores && c.ramBytes >= r.ramBytes && c.gpuCount >= r.gpuCount
      && c.vramPerDevice >= r.vramPerDevice
  }

  /** Counts go down; the memory of a device stays what it is until the last device is taken. */
  function CheckedReserve(c: Capacity, r: Request): (left: Option<Capacity>)
    ensures left.Some? <==>
      c.cpuCores >= r.cpuCores && c.ramBytes >= r.ramBytes && c.gpuCount >= r.gpuCount
      && c.vramPerDevice >= r.vramPerDevice
    ensures left.Some? ==>
      left.value.cpuCores + r.cpuCores == c.cpuCores && left.value.ramBytes + r.ramBytes == c.ramBytes
      && left.value.gpuCount + r.gpuCount == c.gpuCount
    ensures left.Some? ==> left.value.vramPerDevice == (if c.gpuCount > r.gpuCount then c.vramPerDevice else 0)
  {
    if Fits(c, r) then
      Some(Capacity(c.cpuCores - r.cpuCores, c.ramBytes - r.ramBytes, c.gpuCount - r.gpuCount,
                    if c.gpuCount != r.gpuCount then c.vramPerDevice else 0))
    else None
  }

  lemma {:induction false} TotalShrinks(devices: nat, left: nat, vram: nat)
    requires left <= devices
    ensures left * vram <= devices * vram
  {
    assert devices * vram == left * vram + (devices - left) * vram;
  }

  /** Reserving keeps a capacity consistent. */
  lemma {:induction false} ReserveKeepsConsistent(c: Capacity, r: Request)
    requires ConsistentGpu(c.gpuCount, c.vramPerDevice) && Fits(c, r)
    ensures var left := CheckedReserve(c, r).value; ConsistentGpu(left.gpuCount, left.vramPerDevice)
  {
    TotalShrinks(c.gpuCount, c.gpuCount - r.gpuCount, c.vramPerDevice);
  }
}
