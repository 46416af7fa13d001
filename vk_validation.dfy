// The validation-layer check run before the instance is created (src/vk_validation.h).

module VkValidation {
  import opened VkTypes

  /** The prefix of the message thrown for missing layers; the names the source appends
      to it are not part of this model. */
  const MissingLayersMessage := "The following validation layers are not available: "

  /** The requested layers the available set lacks, in request order. */
  function BadLayers(requested: seq<string>, available: set<string>): (bad: seq<string>)
    ensures forall l :: l in bad <==> l in requested && l !in available
    ensures |bad| <= |requested|
    ensures requested == [] ==> bad == []
  {
    Filter(requested, l => l !in available)
  }

  /** The bad layers are the requested layers at the positions of the missing ones. */
  lemma BadLayersInRequestOrder(requested: seq<string>, available: set<string>)
    ensures var ix := KeptIndices(requested, l => l !in available);
            |BadLayers(requested, available)| == |ix| &&
            (forall k :: 0 <= k < |ix| ==> BadLayers(requested, available)[k] == requested[ix[k]]) &&
            (forall i :: 0 <= i < |requested| && requested[i] !in available ==> i in ix)
  {
    FilterAtKeptIndices(requested, l => l !in available);
  }

  /** checkValidationLayers: nothing happens with validation disabled; otherwise the
      layer names the driver lists are gathered into a set, and FatalError is thrown
      when any requested layer is not in it. */
  method CheckValidationLayers(validationEnabled: bool, requested: seq<string>, availableLayers: seq<string>)
    returns (o: Outcome)
    ensures !validationEnabled ==> o == Pass
    ensures validationEnabled ==> (o.Fail? <==> exists l :: l in requested && l !in availableLayers)
    ensures o.Fail? ==> o == Fail(FatalError(MissingLayersMessage))
    ensures requested == [] ==> o == Pass
  {
    if !validationEnabled {
      return Pass;
    }
    var available: set<string> := {};
    for i := 0 to |availableLayers|
      invariant forall l :: l in available <==> l in availableLayers[..i]
    {
      available := available + {availableLayers[i]};
      assert availableLayers[..i + 1] == availableLayers[..i] + [availableLayers[i]];
    }
    assert availableLayers[..|availableLayers|] == availableLayers;
    var badLayers := BadLayers(requested, available);
    if exists l :: l in requested && l !in availableLayers {
      var l :| l in requested && l !in availableLayers;
      var i :| 0 <= i < |requested| && requested[i] == l;
      assert l in badLayers;
    }
    if badLayers != [] {
      assert badLayers[0] in requested && badLayers[0] !in availableLayers;
    }
    if badLayers != [] {
      o := Fail(FatalError(MissingLayersMessage));
    } else {
      o := Pass;
    }
  }
}
