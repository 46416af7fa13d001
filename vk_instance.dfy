// Instance creation and device enumeration (src/vk_instance.h): the validation check
// before the instance exists, the geometry-shader filter over physical devices, the
// classification of each device's queue families into a general family and a
// dedicated transfer family, and the queue create infos built from them.

module VkInstance {
  import opened VkTypes
  import opened VkValidation

  /** vk::QueueFlagBits. */
  const GraphicsBit: bv32 := 0x1
  const ComputeBit: bv32 := 0x2
  const TransferBit: bv32 := 0x4

  /** Graphics | Compute | Transfer. */
  const GeneralQueueFlags: bv32 := 0x7

  /** A physical device as enumeration reports it: whether it is a discrete GPU, the
      geometryShader feature, and the flags of its queue families in family order. */
  datatype PhysicalDevice = PhysicalDevice(handle: nat, discrete: bool, geometryShader: bool, queueFamilies: seq<bv32>)

  /** The record kept for a usable device: the chosen families and the families its
      queues are created on, in create-info order. */
  datatype DeviceRecord = DeviceRecord(physical: PhysicalDevice, generalQueue: Option<nat>, transferQueue: Option<nat>,
                                       queueInfos: seq<nat>, extensions: seq<string>)

  /** The two roles a queue family can be chosen for. */
  datatype FamilyRole = General | DedicatedTransfer

  /** A family is general when it has all of graphics, compute and transfer; a family
      serves dedicated transfer when it is not general and has exactly the transfer flag. */
  predicate Serves(flags: bv32, role: FamilyRole) {
    match role
    case General => flags & GeneralQueueFlags == GeneralQueueFlags
    case DedicatedTransfer => flags & GeneralQueueFlags != GeneralQueueFlags && flags == TransferBit
  }

  /** The last family serving `role`, if any. */
  function LastServing(families: seq<bv32>, role: FamilyRole): (r: Option<nat>)
    ensures r.Some? ==> r.value < |families| && Serves(families[r.value], role)
    ensures r.Some? ==> forall j :: r.value < j < |families| ==> !Serves(families[j], role)
    ensures r.None? <==> forall j :: 0 <= j < |families| ==> !Serves(families[j], role)
  {
    if families == [] then None
    else if Serves(families[|families| - 1], role) then Some(|families| - 1)
    else
      var r := LastServing(families[..|families| - 1], role);
      assert forall j :: 0 <= j < |families| - 1 ==> families[..|families| - 1][j] == families[j];
      r
  }

  /** The queue-family loop: every general family overwrites the general index, every
      other family with exactly the transfer flag overwrites the transfer index. */
  method ClassifyQueueFamilies(families: seq<bv32>) returns (general: Option<nat>, transfer: Option<nat>)
    ensures general == LastServing(families, General)
    ensures transfer == LastServing(families, DedicatedTransfer)
  {
    general := None;
    transfer := None;
    var queueIndex := 0;
    for i := 0 to |families|
      invariant queueIndex == i
      invariant general == LastServing(families[..i], General)
      invariant transfer == LastServing(families[..i], DedicatedTransfer)
    {
      assert families[..i + 1][..i] == families[..i];
      if families[i] & GeneralQueueFlags == GeneralQueueFlags {
        general := Some(queueIndex);
      } else if families[i] == TransferBit {
        transfer := Some(queueIndex);
      }
      queueIndex := queueIndex + 1;
    }
    assert families[..|families|] == families;
  }

  /** The two asserts after the loop: every index found names one of the families.
      That the general and transfer families are never the same is an extra fact of
      the classification, not something the asserts check. */
  lemma ClassifiedIndicesInRange(families: seq<bv32>)
    ensures LastServing(families, General).Some? ==> LastServing(families, General).value < |families|
    ensures LastServing(families, DedicatedTransfer).Some? ==> LastServing(families, DedicatedTransfer).value < |families|
    ensures LastServing(families, General).Some? && LastServing(families, DedicatedTransfer).Some? ==>
      LastServing(families, General).value != LastServing(families, DedicatedTransfer).value
  {
  }

  /** The queue create infos: the general family first if there is one, then the
      transfer family if there is one. */
  method QueueCreateInfos(general: Option<nat>, transfer: Option<nat>) returns (queueInfos: seq<nat>)
    ensures |queueInfos| == (if general.Some? then 1 else 0) + (if transfer.Some? then 1 else 0)
    ensures general.Some? ==> queueInfos[0] == general.value
    ensures transfer.Some? ==> queueInfos[|queueInfos| - 1] == transfer.value
  {
    queueInfos := [];
    if general.Some? {
      queueInfos := queueInfos + [general.value];
    }
    if transfer.Some? {
      queueInfos := queueInfos + [transfer.value];
    }
  }

  /** The record for one device with the geometry-shader feature. */
  function Record(d: PhysicalDevice, deviceExtensions: seq<string>): (r: DeviceRecord)
    ensures r.physical == d && r.extensions == deviceExtensions
    ensures r.generalQueue == LastServing(d.queueFamilies, General)
    ensures r.transferQueue == LastServing(d.queueFamilies, DedicatedTransfer)
    ensures r.queueInfos == (if r.generalQueue.Some? then [r.generalQueue.value] else []) +
                            (if r.transferQueue.Some? then [r.transferQueue.value] else [])
  {
    var g := LastServing(d.queueFamilies, General);
    var t := LastServing(d.queueFamilies, DedicatedTransfer);
    DeviceRecord(d, g, t, (if g.Some? then [g.value] else []) + (if t.Some? then [t.value] else []), deviceExtensions)
  }

  predicate HasGeometryShader(d: PhysicalDevice) {
    d.geometryShader
  }

  /** The records kept for a list of physical devices: one per device with the
      geometry-shader feature, in enumeration order. */
  function Devices(physicalDevices: seq<PhysicalDevice>, deviceExtensions: seq<string>): (ds: seq<DeviceRecord>)
    ensures |ds| == |Filter(physicalDevices, HasGeometryShader)|
    ensures forall k :: 0 <= k < |ds| ==> ds[k] == Record(Filter(physicalDevices, HasGeometryShader)[k], deviceExtensions)
  {
    var kept := Filter(physicalDevices, HasGeometryShader);
    seq(|kept|, k requires 0 <= k < |kept| => Record(kept[k], deviceExtensions))
  }

  /** Devices without the geometry-shader feature produce no record; the others produce
      one each, at the position of their rank among such devices. */
  lemma DevicesInEnumerationOrder(physicalDevices: seq<PhysicalDevice>, deviceExtensions: seq<string>)
    ensures var ix := KeptIndices(physicalDevices, HasGeometryShader);
            var ds := Devices(physicalDevices, deviceExtensions);
            |ds| == |ix| &&
            (forall k :: 0 <= k < |ds| ==> ds[k] == Record(physicalDevices[ix[k]], deviceExtensions)) &&
            (forall k :: 0 <= k < |ds| ==> ds[k].physical.geometryShader) &&
            (forall i :: 0 <= i < |physicalDevices| && physicalDevices[i].geometryShader ==> i in ix)
  {
    FilterAtKeptIndices(physicalDevices, HasGeometryShader);
  }

  /** One more enumerated device adds its record when it has the geometry shader. */
  lemma DevicesStep(physicalDevices: seq<PhysicalDevice>, i: nat, deviceExtensions: seq<string>)
    requires i < |physicalDevices|
    ensures Devices(physicalDevices[..i + 1], deviceExtensions) ==
            Devices(physicalDevices[..i], deviceExtensions) +
            (if physicalDevices[i].geometryShader then [Record(physicalDevices[i], deviceExtensions)] else [])
  {
    var s := physicalDevices[..i + 1];
    assert s[..|s| - 1] == physicalDevices[..i] && s[|s| - 1] == physicalDevices[i];
    var kept := Filter(physicalDevices[..i], HasGeometryShader);
    assert Filter(s, HasGeometryShader) == kept + (if physicalDevices[i].geometryShader then [physicalDevices[i]] else []);
  }

  /** The device loop of the constructor: devices without the geometry-shader feature
      are skipped; each other one has its families classified and its record appended. */
  method EnumerateDevices(physicalDevices: seq<PhysicalDevice>, deviceExtensions: seq<string>)
    returns (devices: seq<DeviceRecord>)
    ensures devices == Devices(physicalDevices, deviceExtensions)
  {
    devices := [];
    for i := 0 to |physicalDevices|
      invariant devices == Devices(physicalDevices[..i], deviceExtensions)
    {
      DevicesStep(physicalDevices, i, deviceExtensions);
      var d := physicalDevices[i];
      if !d.geometryShader {
        continue;
      }
      var general, transfer := ClassifyQueueFamilies(d.queueFamilies);
      var queueInfos := QueueCreateInfos(general, transfer);
      assert queueInfos == (if general.Some? then [general.value] else []) + (if transfer.Some? then [transfer.value] else []);
      assert DeviceRecord(d, general, transfer, queueInfos, deviceExtensions) == Record(d, deviceExtensions);
      devices := devices + [DeviceRecord(d, general, transfer, queueInfos, deviceExtensions)];
    }
    assert physicalDevices[..|physicalDevices|] == physicalDevices;
  }

  /** The VulkanInstance constructor: the validation check runs first and its failure
      throws before any instance or device exists; then the devices are enumerated. */
  method CreateInstance(validationEnabled: bool, validationLayers: seq<string>, availableLayers: seq<string>,
                        physicalDevices: seq<PhysicalDevice>, deviceExtensions: seq<string>)
    returns (r: Result<seq<DeviceRecord>>)
    ensures validationEnabled && (exists l :: l in validationLayers && l !in availableLayers) <==> r.Err?
    ensures r.Err? ==> r.error == FatalError(MissingLayersMessage)
    ensures r.Ok? ==> r.value == Devices(physicalDevices, deviceExtensions)
  {
    var check := CheckValidationLayers(validationEnabled, validationLayers, availableLayers);
    if check.Fail? {
      return Err(check.error);
    }
    var devices := EnumerateDevices(physicalDevices, deviceExtensions);
    r := Ok(devices);
  }
}
