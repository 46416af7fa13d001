// Buffers (src/vk_buffer.h): the memory flags of each buffer type, the choice of a
// memory type for a new buffer, the byte copies in and out of a staging buffer,
// and the copy command between two buffers.

module VkBuffer {
  import opened VkTypes
  import opened Bits
  import opened VkCommand

  /** vk::MemoryPropertyFlagBits. */
  const DeviceLocalBit: bv32 := 0x1
  const HostVisibleBit: bv32 := 0x2
  const HostCoherentBit: bv32 := 0x4

  datatype BufferType = DeviceLocal | Staging | HostAccessible

  /** getMemoryFlags: the memory properties each kind of buffer asks for. */
  function GetMemoryFlags(t: BufferType): (flags: bv32)
    ensures Contains(flags, DeviceLocalBit) <==> t != Staging
    ensures Contains(flags, HostVisibleBit) <==> t != DeviceLocal
    ensures Contains(flags, HostCoherentBit) <==> t == Staging
    ensures flags & !(DeviceLocalBit | HostVisibleBit | HostCoherentBit) == 0
  {
    match t
    case DeviceLocal => DeviceLocalBit
    case Staging => HostVisibleBit | HostCoherentBit
    case HostAccessible => DeviceLocalBit | HostVisibleBit
  }

  // ---------------------------------------------------------------------------
  // Memory-type selection

  /** The property flags of the VK_MAX_MEMORY_TYPES (32) entries of memoryTypes. */
  type MemoryTypeFlags = s: seq<bv32> | |s| == 32 witness seq(32, j => 0)

  /** vk::PhysicalDeviceMemoryProperties, without the heaps. */
  datatype MemoryProperties = MemoryProperties(memoryTypeCount: nat, memoryTypes: MemoryTypeFlags)

  /** vk::MemoryRequirements: the allocation size and the compatible memory types. */
  datatype MemoryRequirements = MemoryRequirements(size: nat, memoryTypeBits: Mask)

  const NoMemoryTypeMessage := "Failed to find suitable memory type for VulkanBuffer"

  /** Memory type `i` is allowed by `bits`, lies below `limit` and has every `required` flag. */
  predicate Suitable(bits: Mask, types: MemoryTypeFlags, required: bv32, limit: nat, i: nat)
  {
    i < 32 && bits[i] && i < limit && Contains(types[i], required)
  }

  /** The lowest suitable memory type at position `j` or above. */
  function FirstSuitableFrom(bits: Mask, types: MemoryTypeFlags, required: bv32, limit: nat, j: nat): (r: Option<nat>)
    requires j <= 32
    decreases 32 - j
    ensures r.Some? ==> j <= r.value && Suitable(bits, types, required, limit, r.value)
    ensures forall i: nat :: j <= i && (r.Some? ==> i < r.value) ==> !Suitable(bits, types, required, limit, i)
  {
    if j == 32 then None
    else if Suitable(bits, types, required, limit, j) then Some(j)
    else FirstSuitableFrom(bits, types, required, limit, j + 1)
  }

  /** The lowest suitable memory type, if any. */
  function FirstSuitable(bits: Mask, types: MemoryTypeFlags, required: bv32, limit: nat): (r: Option<nat>)
    ensures r.Some? ==> Suitable(bits, types, required, limit, r.value)
    ensures forall i: nat :: (r.Some? ==> i < r.value) ==> !Suitable(bits, types, required, limit, i)
  {
    FirstSuitableFrom(bits, types, required, limit, 0)
  }

  /** The findMemoryType loop, with its exit test written as `memoryType >= limit`:
      popcount(bits) rounds, each looking at the lowest remaining bit and clearing
      it with `^=`. */
  method ScanMemoryTypes(typeBits: Mask, types: MemoryTypeFlags, required: bv32, limit: nat) returns (r: Result<nat>)
    ensures r.Ok? <==> FirstSuitable(typeBits, types, required, limit).Some?
    ensures r.Ok? ==> r.value == FirstSuitable(typeBits, types, required, limit).value
    ensures r.Err? ==> r.error == FatalError(NoMemoryTypeMessage)
  {
    var bits := typeBits;
    ghost var scanned := 0;
    var i: int := PopCount(bits);
    i := i - 1;
    while i >= 0
      invariant -1 <= i && PopCount(bits) == i + 1
      invariant scanned <= 32 && scanned <= limit
      invariant forall k :: 0 <= k < 32 ==> bits[k] == (typeBits[k] && k >= scanned)
      invariant forall k :: 0 <= k < scanned ==> !Suitable(typeBits, types, required, limit, k)
      decreases i
    {
      PopCountPositive(bits);
      var memoryType := CountrZero(bits);
      if memoryType >= limit {
        break;
      }
      if Contains(types[memoryType], required) {
        assert Suitable(typeBits, types, required, limit, memoryType);
        return Ok(memoryType);
      }
      PopCountFlipSet(bits, memoryType);
      bits := FlipBit(bits, memoryType);
      scanned := memoryType + 1;
      i := i - 1;
    }
    PopCountPositive(bits);
    assert forall k :: 0 <= k < 32 ==> !Suitable(typeBits, types, required, limit, k);
    return Err(FatalError(NoMemoryTypeMessage));
  }

  /** findMemoryType as written: it gives up only at an index strictly greater than
      memoryTypeCount, so the entry at memoryTypeCount itself is still examined. */
  method FindMemoryTypeAsWritten(req: MemoryRequirements, props: MemoryProperties, required: bv32) returns (r: Result<nat>)
    ensures r.Ok? <==> FirstSuitable(req.memoryTypeBits, props.memoryTypes, required, props.memoryTypeCount + 1).Some?
    ensures r.Ok? ==> r.value == FirstSuitable(req.memoryTypeBits, props.memoryTypes, required, props.memoryTypeCount + 1).value
    ensures r.Err? ==> r.error == FatalError(NoMemoryTypeMessage)
  {
    r := ScanMemoryTypes(req.memoryTypeBits, props.memoryTypes, required, props.memoryTypeCount + 1);
  }

  /** findMemoryType giving up at the first index not below memoryTypeCount: the
      lowest memory type that the requirements allow, that the device defines and
      that has every required flag. */
  method FindMemoryType(req: MemoryRequirements, props: MemoryProperties, required: bv32) returns (r: Result<nat>)
    ensures r.Ok? ==> r.value < 32 && r.value < props.memoryTypeCount && req.memoryTypeBits[r.value] && Contains(props.memoryTypes[r.value], required)
    ensures r.Ok? ==> forall i :: 0 <= i < r.value ==> !Suitable(req.memoryTypeBits, props.memoryTypes, required, props.memoryTypeCount, i)
    ensures r.Err? <==> forall i :: 0 <= i < 32 ==> !Suitable(req.memoryTypeBits, props.memoryTypes, required, props.memoryTypeCount, i)
    ensures r.Err? ==> r.error == FatalError(NoMemoryTypeMessage)
  {
    r := ScanMemoryTypes(req.memoryTypeBits, props.memoryTypes, required, props.memoryTypeCount);
  }

  /** The two exit tests agree, except where the written one picks the entry at
      memoryTypeCount, which is not a memory type of the device. */
  lemma AsWrittenDiffersOnlyAtCount(bits: Mask, types: MemoryTypeFlags, required: bv32, count: nat)
    ensures FirstSuitable(bits, types, required, count + 1) == FirstSuitable(bits, types, required, count) ||
            FirstSuitable(bits, types, required, count + 1) == Some(count)
  {
    var a := FirstSuitable(bits, types, required, count + 1);
    var b := FirstSuitable(bits, types, required, count);
    assert b.Some? ==> Suitable(bits, types, required, count + 1, b.value);
    assert a.Some? && a.value < count ==> Suitable(bits, types, required, count, a.value);
  }

  /** A device with one memory type, requirements allowing only type 1, and an entry 1
      whose flags happen to match: the written test returns type 1. */
  lemma AsWrittenPicksUndefinedType(required: bv32)
    ensures var bits := NoBits[1 := true];
            var types := seq(32, j => required);
            FirstSuitable(bits, types, required, 1 + 1) == Some(1) &&
            FirstSuitable(bits, types, required, 1) == None
  {
    var bits: Mask := NoBits[1 := true];
    var types: MemoryTypeFlags := seq(32, j => required);
    assert Suitable(bits, types, required, 2, 1);
    assert !bits[0];
  }

  // ---------------------------------------------------------------------------
  // Staging copies as functions on the memory contents

  /** The memory after copyFrom(data): the first |data| bytes replaced. */
  function CopiedFrom(memory: seq<bv8>, data: seq<bv8>): (m: seq<bv8>)
    requires |data| <= |memory|
    ensures |m| == |memory|
    ensures m[..|data|] == data && m[|data|..] == memory[|data|..]
  {
    data + memory[|data|..]
  }

  /** The bytes copyTo reads out: the first `size` bytes of the memory. */
  function CopiedTo(memory: seq<bv8>, size: nat): (out: seq<bv8>)
    requires size <= |memory|
    ensures |out| == size && forall i :: 0 <= i < size ==> out[i] == memory[i]
  {
    memory[..size]
  }

  /** copyTo as written: it maps `size` bytes but copies as many bytes as the
      destination holds; Err stands for a read past the end of the mapping. */
  function CopyToAsWritten(mapped: seq<bv8>, destinationLength: nat): (r: Result<seq<bv8>>)
    ensures r.Ok? <==> destinationLength <= |mapped|
    ensures r.Ok? ==> |r.value| == destinationLength && r.value == CopiedTo(mapped, destinationLength)
    ensures r.Err? ==> r.error == OutOfBoundsAccess
  {
    if destinationLength <= |mapped| then Ok(mapped[..destinationLength]) else Err(OutOfBoundsAccess)
  }

  /** Round trip: what copyFrom wrote, copyTo of the same length reads back. */
  lemma CopyRoundTrip(memory: seq<bv8>, data: seq<bv8>)
    requires |data| <= |memory|
    ensures CopiedTo(CopiedFrom(memory, data), |data|) == data
  {
  }

  /** The written copyTo reads past the mapping for every destination longer than the
      buffer, which its own assertion allows; at equal lengths it agrees with CopiedTo. */
  lemma CopyToAsWrittenOverreads(memory: seq<bv8>, size: nat, destinationLength: nat)
    requires size <= |memory| && destinationLength >= size
    ensures destinationLength > size ==> CopyToAsWritten(memory[..size], destinationLength) == Err(OutOfBoundsAccess)
    ensures destinationLength == size ==> CopyToAsWritten(memory[..size], destinationLength) == Ok(CopiedTo(memory, size))
  {
    assert memory[..size][..size] == memory[..size];
  }

  // ---------------------------------------------------------------------------
  // The buffer object

  /** VulkanBuffer: a buffer of `size` bytes bound to `capacity` bytes of memory of
      type `memoryType`; `memory` is the content of that memory. */
  class VulkanBuffer {
    const bufferType: BufferType
    const usage: bv32
    const size: nat
    const capacity: nat
    const buffer: nat
    const memoryType: nat
    const memory: array<bv8>

    ghost predicate Valid() {
      memory.Length == capacity && size <= capacity
    }

    constructor(t: BufferType, u: bv32, bufferSize: nat, memorySize: nat, handle: nat, typeIndex: nat)
      requires bufferSize <= memorySize
      ensures bufferType == t && usage == u && size == bufferSize && capacity == memorySize
      ensures buffer == handle && memoryType == typeIndex && fresh(memory)
      ensures Valid()
    {
      bufferType := t;
      usage := u;
      size := bufferSize;
      capacity := memorySize;
      buffer := handle;
      memoryType := typeIndex;
      memory := new bv8[memorySize];
    }

    /** copyFrom: only on staging buffers, at most `size` bytes, written at offset 0. */
    method CopyFrom(data: seq<bv8>)
      requires Valid() && bufferType == Staging && |data| <= size
      modifies memory
      ensures memory[..] == CopiedFrom(old(memory[..]), data)
    {
      for i := 0 to |data|
        invariant memory[..i] == data[..i]
        invariant memory[i..] == old(memory[..])[i..]
      {
        memory[i] := data[i];
        assert memory[..i + 1] == memory[..i] + [data[i]];
      }
      assert data[..|data|] == data;
      assert memory[..] == memory[..|data|] + memory[|data|..];
    }

    /** copyTo: only on staging buffers, into a destination of at least `size` bytes;
        the first `size` bytes of the destination receive the buffer's bytes. */
    method CopyTo(data: array<bv8>)
      requires Valid() && bufferType == Staging && data.Length >= size && data != memory
      modifies data
      ensures data[..size] == CopiedTo(memory[..], size)
      ensures data[size..] == old(data[size..])
    {
      for i := 0 to size
        invariant data[..i] == memory[..i]
        invariant data[size..] == old(data[size..])
      {
        data[i] := memory[i];
        assert data[..i + 1] == data[..i] + [memory[i]];
      }
    }
  }

  /** The constructor: the buffer size is requested, the driver reports the memory
      requirements (a size of at least the buffer's, by the API's rules), and memory
      of the first suitable type is allocated; no suitable type throws FatalError. */
  method CreateBuffer(t: BufferType, usage: bv32, size: nat, req: MemoryRequirements, props: MemoryProperties, handle: nat)
    returns (r: Result<VulkanBuffer>)
    requires size <= req.size
    ensures r.Err? ==> (r.error == FatalError(NoMemoryTypeMessage) &&
      forall i :: 0 <= i < 32 ==> !Suitable(req.memoryTypeBits, props.memoryTypes, GetMemoryFlags(t), props.memoryTypeCount, i))
    ensures r.Ok? ==> (fresh(r.value) && r.value.Valid() &&
      r.value.bufferType == t && r.value.usage == usage && r.value.buffer == handle &&
      r.value.size == size && r.value.capacity == req.size &&
      r.value.memoryType < 32 && r.value.memoryType < props.memoryTypeCount && req.memoryTypeBits[r.value.memoryType] &&
      Contains(props.memoryTypes[r.value.memoryType], GetMemoryFlags(t)) &&
      forall i :: 0 <= i < r.value.memoryType ==> !Suitable(req.memoryTypeBits, props.memoryTypes, GetMemoryFlags(t), props.memoryTypeCount, i))
  {
    var memoryType := FindMemoryType(req, props, GetMemoryFlags(t));
    if memoryType.Err? {
      return Err(memoryType.error);
    }
    var b := new VulkanBuffer(t, usage, size, req.size, handle, memoryType.value);
    return Ok(b);
  }

  /** Staging round trip through the buffer object. */
  method StageAndReadBack(b: VulkanBuffer, data: seq<bv8>, out: array<bv8>)
    requires b.Valid() && b.bufferType == Staging && |data| == b.size == out.Length && out != b.memory
    modifies b.memory, out
    ensures out[..] == data
  {
    b.CopyFrom(data);
    b.CopyTo(out);
    CopyRoundTrip(old(b.memory[..]), data);
    assert out[..] == out[..b.size];
  }

  // ---------------------------------------------------------------------------
  // Buffer to buffer copies

  /** recordCopyBuffers: the recorder copies the whole source into the destination,
      both from offset 0; the two buffers must be of the same size. */
  function RecordCopyBuffers(source: VulkanBuffer, destination: VulkanBuffer): (cmds: seq<Command>)
    requires source.size == destination.size
    ensures |cmds| == 1 && cmds[0].CopyBuffer?
    ensures cmds[0].source == source.buffer && cmds[0].destination == destination.buffer
    ensures cmds[0].sourceOffset + cmds[0].size == source.size && cmds[0].destinationOffset + cmds[0].size == destination.size
  {
    [CopyBuffer(source.buffer, destination.buffer, 0, 0, source.size)]
  }

  /** What a CopyBuffer command does to the contents of the buffers it names. */
  function ApplyCopy(contents: map<nat, seq<bv8>>, c: Command): Result<map<nat, seq<bv8>>>
    requires c.CopyBuffer?
  {
    if c.source !in contents || c.destination !in contents then Err(OutOfBoundsAccess)
    else
      var src, dst := contents[c.source], contents[c.destination];
      if c.sourceOffset + c.size > |src| || c.destinationOffset + c.size > |dst| then Err(OutOfBoundsAccess)
      else Ok(contents[c.destination :=
        dst[..c.destinationOffset] + src[c.sourceOffset..c.sourceOffset + c.size] + dst[c.destinationOffset + c.size..]])
  }

  /** Running the recorded copy between two distinct buffers of equal size leaves the
      destination equal to the source and every other buffer as it was. */
  lemma RecordCopyBuffersCopies(source: VulkanBuffer, destination: VulkanBuffer, contents: map<nat, seq<bv8>>)
    requires source.size == destination.size
    requires source.buffer in contents && destination.buffer in contents && source.buffer != destination.buffer
    requires |contents[source.buffer]| == source.size && |contents[destination.buffer]| == destination.size
    ensures |RecordCopyBuffers(source, destination)| == 1
    ensures ApplyCopy(contents, RecordCopyBuffers(source, destination)[0]).Ok?
    ensures var after := ApplyCopy(contents, RecordCopyBuffers(source, destination)[0]).value;
            after.Keys == contents.Keys &&
            after[destination.buffer] == contents[source.buffer] &&
            forall h :: h in contents && h != destination.buffer ==> after[h] == contents[h]
  {
    var src := contents[source.buffer];
    var dst := contents[destination.buffer];
    assert dst[..0] + src[0..source.size] + dst[source.size..] == src;
  }
}
