// The swapchain (src/vk_swapchain.h): the choice of present mode and image count,
// one image view per swapchain image and one framebuffer per view, image
// acquisition and framebuffer lookup.

module VkSwapchain {
  import opened VkTypes

  /** vk::PresentModeKHR. */
  datatype PresentMode = Immediate | Mailbox | Fifo | FifoRelaxed

  /** An image view as created here: a 2D colour view of one image in the surface format. */
  datatype ImageView = ImageView(image: nat, format: nat)

  /** A framebuffer as created here: one attachment, one layer. */
  datatype Framebuffer = Framebuffer(renderPass: nat, attachment: ImageView, width: nat, height: nat)

  const AcquireFailedMessage := "Swapchain failed to acquire next image"

  /** The present-mode loop: Mailbox if offered (the loop stops at it), else Fifo. */
  method ChoosePresentMode(modes: seq<PresentMode>) returns (mode: PresentMode)
    ensures mode == Mailbox <==> Mailbox in modes
    ensures mode != Mailbox ==> mode == Fifo
  {
    mode := Fifo;
    for i := 0 to |modes|
      invariant mode == Fifo && Mailbox !in modes[..i]
    {
      if modes[i] == Mailbox {
        mode := modes[i];
        assert Mailbox in modes;
        return;
      }
      assert modes[..i + 1] == modes[..i] + [modes[i]];
    }
    assert modes[..|modes|] == modes;
  }

  /** The requested image count: two, capped by a non-zero maxImageCount. */
  function ImageCount(maxImageCount: nat): (n: nat)
    ensures 1 <= n <= 2
    ensures maxImageCount != 0 ==> n <= maxImageCount
    ensures maxImageCount == 0 || maxImageCount >= 2 <==> n == 2
  {
    var imageCount := 2;
    if maxImageCount != 0 then (if imageCount < maxImageCount then imageCount else maxImageCount) else imageCount
  }

  /** The image-view loop: one view per image, in image order. */
  method CreateImageViews(images: seq<nat>, format: nat) returns (views: seq<ImageView>)
    ensures |views| == |images|
    ensures forall i :: 0 <= i < |images| ==> views[i] == ImageView(images[i], format)
  {
    views := [];
    for i := 0 to |images|
      invariant |views| == i
      invariant forall k :: 0 <= k < i ==> views[k] == ImageView(images[k], format)
    {
      views := views + [ImageView(images[i], format)];
    }
  }

  /** The framebuffer loop: one framebuffer per view, in view order. */
  method CreateFramebuffers(views: seq<ImageView>, renderPass: nat, width: nat, height: nat)
    returns (framebuffers: seq<Framebuffer>)
    ensures |framebuffers| == |views|
    ensures forall i :: 0 <= i < |views| ==> framebuffers[i] == Framebuffer(renderPass, views[i], width, height)
  {
    framebuffers := [];
    for i := 0 to |views|
      invariant |framebuffers| == i
      invariant forall k :: 0 <= k < i ==> framebuffers[k] == Framebuffer(renderPass, views[k], width, height)
    {
      framebuffers := framebuffers + [Framebuffer(renderPass, views[i], width, height)];
    }
  }

  /** VulkanSwapchain: the created swapchain with its images (as the driver reports
      them), their views and their framebuffers. */
  class Swapchain {
    const swapchain: nat
    const format: nat
    const renderPass: nat
    const width: nat
    const height: nat
    const presentMode: PresentMode
    const imageCount: nat
    const images: seq<nat>
    const imageViews: seq<ImageView>
    const framebuffers: seq<Framebuffer>

    /** One view per image and one framebuffer per view, position by position. */
    ghost predicate Valid() {
      |imageViews| == |images| == |framebuffers| &&
      forall i :: 0 <= i < |images| ==>
        imageViews[i] == ImageView(images[i], format) &&
        framebuffers[i] == Framebuffer(renderPass, imageViews[i], width, height)
    }

    /** The constructor: `offeredModes` and `maxImageCount` are what the surface
        supports, `swapchainImages` what the driver returns for the new swapchain. */
    constructor(handle: nat, offeredModes: seq<PresentMode>, maxImageCount: nat, swapchainImages: seq<nat>,
                format: nat, renderPass: nat, width: nat, height: nat)
      ensures swapchain == handle && images == swapchainImages
      ensures this.format == format && this.renderPass == renderPass && this.width == width && this.height == height
      ensures presentMode == (if Mailbox in offeredModes then Mailbox else Fifo)
      ensures imageCount == ImageCount(maxImageCount)
      ensures Valid()
    {
      var mode := ChoosePresentMode(offeredModes);
      var views := CreateImageViews(swapchainImages, format);
      var fbs := CreateFramebuffers(views, renderPass, width, height);
      swapchain := handle;
      this.format := format;
      this.renderPass := renderPass;
      this.width := width;
      this.height := height;
      presentMode := mode;
      imageCount := ImageCount(maxImageCount);
      images := swapchainImages;
      imageViews := views;
      framebuffers := fbs;
    }

    /** size() and getFramebufferCount(): the number of framebuffers, one per image. */
    function Size(): (n: nat)
      requires Valid()
      ensures n == |images| == |imageViews|
    {
      |framebuffers|
    }

    /** getFramebuffer: a checked lookup; an index past the end throws out_of_range;
        framebuffer `index` renders into the view of image `index`. */
    function GetFramebuffer(index: nat): (r: Result<Framebuffer>)
      requires Valid()
      ensures r.Ok? <==> index < Size()
      ensures r.Ok? ==> r.value == Framebuffer(renderPass, ImageView(images[index], format), width, height)
    {
      if index < |framebuffers| then Ok(framebuffers[index]) else Err(OutOfRange)
    }

    /** acquireNextImage: the driver's result and image index; anything but eSuccess,
        suboptimal included, throws FatalError. */
    function AcquireNextImage(driverResult: VkResult, imageIndex: nat): (r: Result<nat>)
      ensures r.Ok? <==> driverResult == Success
      ensures r.Ok? ==> r.value == imageIndex
      ensures r.Err? ==> r.error == FatalError(AcquireFailedMessage)
    {
      if driverResult != Success then Err(FatalError(AcquireFailedMessage)) else Ok(imageIndex)
    }
  }
}
