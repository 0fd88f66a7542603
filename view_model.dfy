/** `CouponGeneratorViewModel`: the screen state of coupon generation. The
    controller's three publishers become event methods (`Receive...`), and
    the calls the view model makes into the controller are recorded in
    `controllerCalls`. */
module CouponGeneratorViewModels {
  import opened CouponGenerators

  /** A request to the coupon controller. */
  datatype ControllerCall =
    | GenerateCouponsCall(timeout: real, couponDistance: int, couponsCount: int)
    | CancelGenerationCall

  class CouponGeneratorViewModel {
    var progress: real
    var timeout: real
    var couponMinDistance: int
    var couponsCount: int
    var isGenerating: bool
    var generatedCoupons: seq<GeneratedCoupon>
    var canGenerateCoupons: bool
    /** What the view model asked of the controller, oldest first. */
    var controllerCalls: seq<ControllerCall>

    /** The initializer: the defaults, then what the controller's
        publishers deliver on subscription, in subscription order
        (readiness, progress, then non-empty coupons). */
    constructor (commonDataReady: bool, controllerProgress: real, controllerCoupons: seq<GeneratedCoupon>)
      ensures timeout == 30.0 && couponMinDistance == 2 && couponsCount == 10
      ensures canGenerateCoupons == commonDataReady
      ensures controllerCoupons == [] ==>
        progress == controllerProgress && !isGenerating && generatedCoupons == []
      ensures controllerCoupons != [] ==>
        progress == 0.0 && !isGenerating && generatedCoupons == controllerCoupons
      ensures controllerCalls == []
    {
      progress := 0.0;
      timeout := 30.0;
      couponMinDistance := 2;
      couponsCount := 10;
      isGenerating := false;
      generatedCoupons := [];
      canGenerateCoupons := false;
      controllerCalls := [];
      new;
      ReceiveCommonDataReady(commonDataReady);
      ReceiveProgress(controllerProgress);
      ReceiveGeneratedCoupons(controllerCoupons);
    }

    /** The `commonDataReady` binding. */
    method ReceiveCommonDataReady(ready: bool)
      modifies this`canGenerateCoupons
      ensures canGenerateCoupons == ready
    {
      canGenerateCoupons := ready;
    }

    /** The `progress` binding. */
    method ReceiveProgress(value: real)
      modifies this`progress
      ensures progress == value
    {
      progress := value;
    }

    /** The `generatedCoupons` sink: an empty batch is filtered out;
        otherwise generation ends, progress resets and the batch is shown. */
    method ReceiveGeneratedCoupons(coupons: seq<GeneratedCoupon>)
      modifies this`isGenerating, this`progress, this`generatedCoupons
      ensures coupons == [] ==>
        isGenerating == old(isGenerating) && progress == old(progress) && generatedCoupons == old(generatedCoupons)
      ensures coupons != [] ==> !isGenerating && progress == 0.0 && generatedCoupons == coupons
    {
      if coupons != [] {
        isGenerating := false;
        progress := 0.0;
        generatedCoupons := coupons;
      }
    }

    /** `generateCoupons`: marks generation running and asks the controller
        with the current settings. */
    method GenerateCoupons()
      modifies this`isGenerating, this`controllerCalls
      ensures isGenerating
      ensures controllerCalls == old(controllerCalls) + [GenerateCouponsCall(timeout, couponMinDistance, couponsCount)]
    {
      isGenerating := true;
      controllerCalls := controllerCalls + [GenerateCouponsCall(timeout, couponMinDistance, couponsCount)];
    }

    /** `clearCoupons`. */
    method ClearCoupons()
      modifies this`generatedCoupons
      ensures generatedCoupons == []
    {
      generatedCoupons := [];
    }

    /** `cancelGeneration`: stops, resets progress and tells the controller. */
    method CancelGeneration()
      modifies this`isGenerating, this`progress, this`controllerCalls
      ensures !isGenerating && progress == 0.0
      ensures controllerCalls == old(controllerCalls) + [CancelGenerationCall]
    {
      isGenerating := false;
      progress := 0.0;
      controllerCalls := controllerCalls + [CancelGenerationCall];
    }
  }
}
