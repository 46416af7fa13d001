// The compile-time feature lists of src/vk_types.h, as runtime values: a feature
// names the instance extensions, device extensions and validation layers it needs
// and the features it depends on; a FeatureList of features concatenates their
// lists in declaration order and answers membership (hasFeature).

module VkFeatures {
  import opened VkTypes

  /** The three platforms VK_PLATFORM is defined for. */
  datatype Platform = Win32 | Android | Xcb

  function PlatformName(p: Platform): string {
    match p
    case Win32 => "win32"
    case Android => "android"
    case Xcb => "xcb"
  }

  /** Which of a feature's three name lists is meant. */
  datatype NameKind = InstanceExtensions | DeviceExtensions | ValidationLayers

  /** A feature type: either a named feature struct (its identity is its name) with its
      three name lists and the members of its `Dependencies` FeatureList, or a
      FeatureList of features. */
  datatype Feature =
    | Named(name: string, instanceExtensions: seq<string>, deviceExtensions: seq<string>,
            validationLayers: seq<string>, dependencies: seq<Feature>)
    | FeatureList(members: seq<Feature>)

  /** The names of kind `kind` a feature declares; for a FeatureList, array_concat of
      the members' lists. */
  function Names(f: Feature, kind: NameKind): (r: seq<string>)
    ensures f.FeatureList? ==>
      |r| == TotalLength(seq(|f.members|, k requires 0 <= k < |f.members| => Names(f.members[k], kind)))
    ensures f.FeatureList? ==>
      forall x :: x in r <==> exists k :: 0 <= k < |f.members| && x in Names(f.members[k], kind)
  {
    match f
    case Named(_, inst, dev, layers, _) =>
      (match kind
       case InstanceExtensions => inst
       case DeviceExtensions => dev
       case ValidationLayers => layers)
    case FeatureList(ms) =>
      var parts := seq(|ms|, k requires 0 <= k < |ms| => Names(ms[k], kind));
      ConcatLength(parts);
      ConcatMembers(parts);
      assert forall k :: 0 <= k < |ms| ==> parts[k] == Names(ms[k], kind);
      Concat(parts)
  }

  /** `Dependencies` of a feature: a named feature's own FeatureList, and for a
      FeatureList the FeatureList of its members' Dependencies. */
  function Dependencies(f: Feature): (r: Feature)
    ensures r.FeatureList?
    ensures f.Named? ==> r.members == f.dependencies
    ensures f.FeatureList? ==> |r.members| == |f.members| && forall k :: 0 <= k < |f.members| ==> r.members[k].FeatureList?
  {
    match f
    case Named(_, _, _, _, deps) => FeatureList(deps)
    case FeatureList(ms) => FeatureList(seq(|ms|, k requires 0 <= k < |ms| => Dependencies(ms[k])))
  }

  /** The named features a feature is built from, in order (a named feature is its own). */
  function Leaves(f: Feature): (r: seq<Feature>)
    ensures forall l :: l in r ==> l.Named?
  {
    match f
    case Named(_, _, _, _, _) => [f]
    case FeatureList(ms) =>
      var parts := seq(|ms|, k requires 0 <= k < |ms| => Leaves(ms[k]));
      LeavesNamed(parts);
      Concat(parts)
  }

  lemma {:induction false} LeavesNamed(parts: seq<seq<Feature>>)
    requires forall k, l :: 0 <= k < |parts| && l in parts[k] ==> l.Named?
    ensures forall l :: l in Concat(parts) ==> l.Named?
  {
    forall l | l in Concat(parts) ensures l.Named? {
      InConcat(parts, l);
    }
  }

  /** FeatureList<args...>::hasFeature<t>: a named feature must be one of `args`;
      a FeatureList is present when every member is, recursively. So hasFeature holds
      exactly when every named feature the queried feature is built from is a member. */
  predicate HasFeature(args: seq<Feature>, t: Feature)
    ensures HasFeature(args, t) <==> forall l :: l in Leaves(t) ==> l in args
  {
    match t
    case Named(_, _, _, _, _) => t in args
    case FeatureList(ms) =>
      var parts := seq(|ms|, k requires 0 <= k < |ms| => Leaves(ms[k]));
      ConcatMembers(parts);
      assert Leaves(t) == Concat(parts);
      assert forall k :: 0 <= k < |ms| ==> parts[k] == Leaves(ms[k]);
      forall k :: 0 <= k < |ms| ==> HasFeature(args, ms[k])
  }

  /** A FeatureList's names are its members' names concatenated in declaration order:
      the total length is the sum, and name `j` of member `k` sits after the names of
      the members before it. */
  lemma FeatureListNames(ms: seq<Feature>, kind: NameKind, k: nat, j: nat)
    requires k < |ms| && j < |Names(ms[k], kind)|
    ensures var parts := seq(|ms|, i requires 0 <= i < |ms| => Names(ms[i], kind));
            |Names(FeatureList(ms), kind)| == TotalLength(parts)
            && TotalLength(parts[..k]) + j < |Names(FeatureList(ms), kind)|
            && Names(FeatureList(ms), kind)[TotalLength(parts[..k]) + j] == Names(ms[k], kind)[j]
  {
    var parts := seq(|ms|, i requires 0 <= i < |ms| => Names(ms[i], kind));
    ConcatLength(parts);
    ConcatAt(parts, k, j);
  }

  /** EmptyFeature: a feature with no names and an empty dependency list. */
  const EmptyFeature := Named("EmptyFeature", [], [], [], [])

  /** FeatureList<> behaves as EmptyFeature: no names, no dependencies, and every
      list has it. */
  lemma EmptyFeatureList(args: seq<Feature>, kind: NameKind)
    ensures Names(FeatureList([]), kind) == [] == Names(EmptyFeature, kind)
    ensures Dependencies(FeatureList([])) == FeatureList([]) == Dependencies(EmptyFeature)
    ensures HasFeature(args, FeatureList([]))
  {
  }

  // ---------------------------------------------------------------------------
  // The features the engine declares.

  const SwapchainExtension := "VK_KHR_swapchain"
  const PhysicalDeviceProperties2Extension := "VK_KHR_get_physical_device_properties2"
  const ExternalSemaphoreCapabilitiesExtension := "VK_KHR_external_semaphore_capabilities"
  const ExternalSemaphoreExtension := "VK_KHR_external_semaphore"
  const TimelineSemaphoreExtension := "VK_KHR_timeline_semaphore"
  const ExternalFenceCapabilitiesExtension := "VK_KHR_external_fence_capabilities"
  const ExternalFenceExtension := "VK_KHR_external_fence"
  const SurfaceExtension := "VK_KHR_surface"
  const Win32SurfaceExtension := "VK_KHR_win32_surface"
  const HeadlessSurfaceExtension := "VK_EXT_headless_surface"
  const DebugUtilsExtension := "VK_EXT_debug_utils"
  const KhronosValidationLayer := "VK_LAYER_KHRONOS_validation"

  const SwapchainFeature := Named("SwapchainFeature", [], [SwapchainExtension], [], [])

  const PhysicalDevicePropertiesFeature :=
    Named("PhysicalDevicePropertiesFeature", [PhysicalDeviceProperties2Extension], [], [], [])

  function SemaphoreFeature(p: Platform): Feature {
    Named("SemaphoreFeature", [ExternalSemaphoreCapabilitiesExtension],
          [ExternalSemaphoreExtension, ExternalSemaphoreExtension + "_" + PlatformName(p)], [],
          [PhysicalDevicePropertiesFeature])
  }

  function TimelineSemaphoreFeature(p: Platform): Feature {
    Named("TimelineSemaphoreFeature", [], [TimelineSemaphoreExtension], [], [SemaphoreFeature(p)])
  }

  function FenceFeature(p: Platform): Feature {
    Named("FenceFeature", [ExternalFenceCapabilitiesExtension],
          [ExternalFenceExtension, ExternalFenceExtension + "_" + PlatformName(p)], [],
          [PhysicalDevicePropertiesFeature])
  }

  /** The surface extension, and on Windows also the win32 surface extension. */
  function SurfaceFeature(p: Platform): Feature {
    Named("SurfaceFeature",
          [SurfaceExtension] + (if p == Win32 then [Win32SurfaceExtension] else []), [], [], [])
  }

  function SdlFeature(p: Platform): Feature {
    Named("SDLFeature", [], [], [], [SurfaceFeature(p)])
  }

  function HeadlessSurfaceFeature(p: Platform): Feature {
    Named("HeadlessSurfaceFeature", [HeadlessSurfaceExtension], [], [], [SurfaceFeature(p)])
  }

  const GlfwFeature := Named("GLFWFeature", [], [], [], [])

  const ValidationLayerFeature := Named("ValidationLayerFeature", [DebugUtilsExtension], [], [KhronosValidationLayer], [])

  /** ValidationLayerFeatureIfEnabled: the layer feature in debug builds, else EmptyFeature. */
  function ValidationLayerFeatureIfEnabled(enableValidationLayers: bool): Feature {
    if enableValidationLayers then ValidationLayerFeature else EmptyFeature
  }

  /** AvailableFeatures of src/vk_types.h. */
  function AvailableFeatures(p: Platform, enableValidationLayers: bool): seq<Feature> {
    [SurfaceFeature(p), SdlFeature(p), PhysicalDevicePropertiesFeature, FenceFeature(p),
     SemaphoreFeature(p), SwapchainFeature, ValidationLayerFeatureIfEnabled(enableValidationLayers)]
  }

  /** The feature list src/vk_engine.cpp builds its instance from: the same, plus the
      timeline-semaphore feature. */
  function EngineFeatures(p: Platform, enableValidationLayers: bool): seq<Feature> {
    [SurfaceFeature(p), SdlFeature(p), PhysicalDevicePropertiesFeature, FenceFeature(p),
     SemaphoreFeature(p), TimelineSemaphoreFeature(p), SwapchainFeature,
     ValidationLayerFeatureIfEnabled(enableValidationLayers)]
  }

  /** Every member's dependencies are members: a named dependency list that only names
      members of `args` is satisfied. */
  lemma {:induction false} NamedDependenciesPresent(args: seq<Feature>, deps: seq<Feature>)
    requires forall d :: d in deps ==> d.Named? && d in args
    ensures HasFeature(args, FeatureList(deps))
  {
  }

  /** The static_assert of src/vk_types.h: AvailableFeatures satisfies its own
      Dependencies, on every platform and in both build kinds. */
  lemma AvailableFeaturesDependenciesSatisfied(p: Platform, enableValidationLayers: bool)
    ensures var args := AvailableFeatures(p, enableValidationLayers);
            HasFeature(args, Dependencies(FeatureList(args)))
  {
    var args := AvailableFeatures(p, enableValidationLayers);
    var deps := Dependencies(FeatureList(args));
    assert deps.members == seq(|args|, k requires 0 <= k < |args| => Dependencies(args[k]));
    forall k | 0 <= k < |args| ensures HasFeature(args, deps.members[k]) {
      assert deps.members[k] == FeatureList(args[k].dependencies);
      NamedDependenciesPresent(args, args[k].dependencies);
    }
  }

  /** The same holds of the list the engine uses, which adds the timeline-semaphore
      feature (its dependency, the semaphore feature, is a member). */
  lemma EngineFeaturesDependenciesSatisfied(p: Platform, enableValidationLayers: bool)
    ensures var args := EngineFeatures(p, enableValidationLayers);
            HasFeature(args, Dependencies(FeatureList(args)))
  {
    var args := EngineFeatures(p, enableValidationLayers);
    var deps := Dependencies(FeatureList(args));
    assert deps.members == seq(|args|, k requires 0 <= k < |args| => Dependencies(args[k]));
    forall k | 0 <= k < |args| ensures HasFeature(args, deps.members[k]) {
      assert deps.members[k] == FeatureList(args[k].dependencies);
      NamedDependenciesPresent(args, args[k].dependencies);
    }
  }

  /** RequiresFeature: the swapchain's feature is available, the GLFW feature is not
      (so GLFWOutput cannot be instantiated), and the timeline-semaphore feature is only
      in the engine's list. */
  lemma RequiredFeatures(p: Platform, enableValidationLayers: bool)
    ensures HasFeature(AvailableFeatures(p, enableValidationLayers), SwapchainFeature)
    ensures !HasFeature(AvailableFeatures(p, enableValidationLayers), GlfwFeature)
    ensures !HasFeature(AvailableFeatures(p, enableValidationLayers), TimelineSemaphoreFeature(p))
    ensures HasFeature(EngineFeatures(p, enableValidationLayers), TimelineSemaphoreFeature(p))
  {
    var args := AvailableFeatures(p, enableValidationLayers);
    assert args[5] == SwapchainFeature;
    assert forall k :: 0 <= k < |args| ==> args[k].name != "GLFWFeature";
    assert forall k :: 0 <= k < |args| ==> args[k].name != "TimelineSemaphoreFeature";
    assert EngineFeatures(p, enableValidationLayers)[5] == TimelineSemaphoreFeature(p);
  }

  /** The instance extensions the engine enables on Linux (xcb) in a debug build, in
      declaration order and without deduplication. */
  lemma EngineInstanceExtensionsXcb()
    ensures Names(FeatureList(EngineFeatures(Xcb, true)), InstanceExtensions)
         == [SurfaceExtension, PhysicalDeviceProperties2Extension, ExternalFenceCapabilitiesExtension,
             ExternalSemaphoreCapabilitiesExtension, DebugUtilsExtension]
  {
    var args := EngineFeatures(Xcb, true);
    var parts := seq(|args|, k requires 0 <= k < |args| => Names(args[k], InstanceExtensions));
    assert parts[0] == [SurfaceExtension] + [];
    assert parts[1] == [] && parts[5] == [] && parts[6] == [];
    assert parts[2] == [PhysicalDeviceProperties2Extension];
    assert parts[3] == [ExternalFenceCapabilitiesExtension];
    assert parts[4] == [ExternalSemaphoreCapabilitiesExtension];
    assert parts[7] == [DebugUtilsExtension];
    assert Concat(parts[..1]) == [SurfaceExtension];
    assert Concat(parts[..3]) == [SurfaceExtension, PhysicalDeviceProperties2Extension] by {
      assert parts[..3][..2] == parts[..2];
      assert parts[..2][..1] == parts[..1];
    }
    assert Concat(parts[..5]) == [SurfaceExtension, PhysicalDeviceProperties2Extension,
                                  ExternalFenceCapabilitiesExtension, ExternalSemaphoreCapabilitiesExtension] by {
      assert parts[..5][..4] == parts[..4];
      assert parts[..4][..3] == parts[..3];
    }
    assert parts[..6][..5] == parts[..5];
    assert parts[..7][..6] == parts[..6];
    assert parts[..8][..7] == parts[..7];
    assert Concat(parts[..7]) == Concat(parts[..5]);
    assert parts[..8] == parts;
    assert Names(FeatureList(args), InstanceExtensions) == Concat(parts);
  }
}
