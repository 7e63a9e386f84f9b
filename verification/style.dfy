/**
 * The style application as a whole: device and precision, pipeline
 * construction with its single CPU retry, memory options, the sampler
 * swap, the variant loop, upscaling, and the value handed back.
 * Every collaborator (the diffusion library, the CUDA runtime, the
 * resampler) is a parameter describing how each call ends.
 */
module Style {
  import opened Optional
  import opened ModelType
  import opened Device
  import opened Scheduler
  import opened Variants
  import opened Upscale

  /** How one attempt to construct the base pipeline ended. */
  datatype LoadAttempt =
    | Loaded
    | CudaRuntimeError   // a RuntimeError whose message mentions CUDA
    | OtherError         // any other exception

  /** The environment variables the application reads once at start-up. */
  datatype Settings = Settings(attentionSlicing: bool, offloadMode: string, maxMemoryGb: real)

  /** One request: the parameters the page passes in. */
  datatype Request = Request(
    kind: ModelKind,
    seed: Option<int>,
    varianceSeed: Option<int>,
    numImages: nat,
    sampler: string,
    upscaleFactor: int)

  /** A constructed pipeline, as far as the orchestration decides it. */
  datatype Pipeline<C> = Pipeline(
    device: Target,
    precision: Precision,
    adapterAttached: bool,
    slicing: bool,
    offloaded: bool,
    scheduler: Scheduler<C>)

  /** How every collaborator call ends. */
  datatype Collaborators<!C> = Collaborators(
    choice: Choice,                 // the device policy's answer
    cudaAvailable: bool,            // asked again by the offload decision
    totalMemoryBytes: nat,          // the card's memory, asked again likewise
    baseLoad: LoadAttempt,          // base pipeline for an adapter, on the chosen device
    cpuRetry: bool,                 // the same on the CPU after a CUDA error
    adapterLoad: bool,              // loading the adapter weights
    adapterRetry: bool,             // loading them again by weight file name
    checkpointLoad: bool,           // single-file checkpoint load and its memory options
    scheduler: Scheduler<C>,        // the scheduler the loaded pipeline comes with
    pipe: (Pipeline<C>, nat, Option<int>) -> Outcome<Image>,  // one generation call
    resized: nat -> bool)           // whether resizing image i succeeds

  datatype Loading<C> =
    | Ready(pipeline: Pipeline<C>)
    | GaveUp        // app.py reports an error and returns None
    | Propagated    // an exception leaves the style application

  /**
   * Pipeline construction. An adapter is attached to a base pipeline,
   * which is rebuilt once on the CPU after a CUDA runtime error; failing
   * adapter weights are skipped. A full checkpoint that fails to load
   * ends the request without an exception, as does an unclassified
   * model. The offload choice is made from the device chosen before any
   * retry.
   */
  function LoadPipeline<C>(kind: ModelKind, settings: Settings, env: Collaborators<C>): (r: Loading<C>)
    ensures r.Propagated? <==>
      kind == Lora && (env.baseLoad == OtherError || (env.baseLoad == CudaRuntimeError && !env.cpuRetry))
    ensures r.GaveUp? <==> kind == Unknown || (kind == FullModel && !env.checkpointLoad)
    ensures r.Ready? ==>
      && (r.pipeline.device == Cpu <==> env.choice.target == Cpu || (kind == Lora && env.baseLoad == CudaRuntimeError))
      && r.pipeline.precision == PrecisionFor(r.pipeline.device)
      && (r.pipeline.adapterAttached <==> kind == Lora && (env.adapterLoad || env.adapterRetry))
      && r.pipeline.slicing == settings.attentionSlicing
      && r.pipeline.offloaded == CpuOffload(settings.offloadMode, env.choice.target, env.cudaAvailable,
                                            env.totalMemoryBytes, settings.maxMemoryGb)
      && r.pipeline.scheduler == env.scheduler
  {
    var device := env.choice.target;
    var offload := CpuOffload(settings.offloadMode, device, env.cudaAvailable, env.totalMemoryBytes, settings.maxMemoryGb);
    match kind
    case Lora =>
      var loadedOn :=
        match env.baseLoad
        case Loaded => Some(device)
        case CudaRuntimeError => if env.cpuRetry then Some(Cpu) else None
        case OtherError => None;
      if loadedOn.None? then Propagated
      else
        var attached := env.adapterLoad || env.adapterRetry;
        Ready(Pipeline(loadedOn.value, PrecisionFor(loadedOn.value), attached,
                       settings.attentionSlicing, offload, env.scheduler))
    case FullModel =>
      if env.checkpointLoad then
        Ready(Pipeline(device, PrecisionFor(device), false, settings.attentionSlicing, offload, env.scheduler))
      else GaveUp
    case Unknown => GaveUp
  }

  /** What the style application ends with: a returned value or an escaping exception. */
  datatype StyleResult = Returned(image: Option<Image>) | Raised

  /** The images the loaded pipeline produces, after upscaling. */
  function FinalImages<C>(p: Pipeline<C>, req: Request, env: Collaborators<C>): seq<Image> {
    var generated := Successes(Attempts(req.numImages, req.seed, req.varianceSeed,
                                        (i: nat, g: Option<int>) => env.pipe(p, i, g)));
    UpscaleImages(generated, req.upscaleFactor, env.resized)
  }

  /** A loaded pipeline with the requested sampler swapped in. */
  function SamplerApplied<C>(p: Pipeline<C>, sampler: string): Pipeline<C> {
    p.(scheduler := ApplySampler(p.scheduler, sampler))
  }

  /** Some variant of the request generates an image on pipeline `p`. */
  ghost predicate SomeVariantSucceeds<C>(p: Pipeline<C>, req: Request, env: Collaborators<C>) {
    exists i :: 0 <= i < req.numImages && env.pipe(p, i, VariantSeed(req.seed, req.varianceSeed, i)).Generated?
  }

  /** Variant `j` is the first variant whose generation on pipeline `p` succeeds. */
  ghost predicate FirstSuccessAt<C>(p: Pipeline<C>, req: Request, env: Collaborators<C>, j: nat) {
    && j < req.numImages
    && env.pipe(p, j, VariantSeed(req.seed, req.varianceSeed, j)).Generated?
    && forall i :: 0 <= i < j ==> env.pipe(p, i, VariantSeed(req.seed, req.varianceSeed, i)).Failed?
  }

  /**
   * The image handed back for the first surviving variant's image `img`:
   * with a factor above one it is the first image of the upscaling loop,
   * scaled by the factor when that resize succeeded and kept as it was
   * when it raised.
   */
  function Delivered(img: Image, factor: int, firstResized: bool): Image {
    if factor > 1 && firstResized then Image(img.width * factor, img.height * factor) else img
  }

  /**
   * The whole request. The sampler is swapped in after loading, the
   * variants are generated on the swapped pipeline, and only the first
   * surviving image (after upscaling) is handed back. Once the pipeline
   * is loaded nothing escapes: failed variants are skipped, and an image
   * comes back exactly when some variant succeeded.
   */
  function ApplyStyle<C>(req: Request, settings: Settings, env: Collaborators<C>): (r: StyleResult)
    ensures r.Raised? <==> LoadPipeline(req.kind, settings, env).Propagated?
    ensures r.Raised? ==> req.kind == Lora
    ensures LoadPipeline(req.kind, settings, env).GaveUp? ==> r == Returned(None)
    ensures req.kind != Lora && !env.checkpointLoad ==> r == Returned(None)
    ensures req.kind == Unknown ==> r == Returned(None)
    ensures LoadPipeline(req.kind, settings, env).Ready? ==>
      && r.Returned?
      && (r.image.Some? <==>
            SomeVariantSucceeds(SamplerApplied(LoadPipeline(req.kind, settings, env).pipeline, req.sampler), req, env))
    ensures LoadPipeline(req.kind, settings, env).Ready? ==>
      var p := SamplerApplied(LoadPipeline(req.kind, settings, env).pipeline, req.sampler);
      forall j: nat :: FirstSuccessAt(p, req, env, j) ==>
        r == Returned(Some(Delivered(env.pipe(p, j, VariantSeed(req.seed, req.varianceSeed, j)).image,
                                     req.upscaleFactor, env.resized(0))))
  {
    match LoadPipeline(req.kind, settings, env)
    case Propagated => Raised
    case GaveUp => Returned(None)
    case Ready(p) =>
      var swapped := SamplerApplied(p, req.sampler);
      var images := FinalImages(swapped, req, env);
      SomeImageIffSomeSuccess(swapped, req, env);
      FirstImageIsFirstSurvivor(swapped, req, env);
      Returned(FirstResult(images))
  }

  /**
   * The final list is non-empty exactly when some variant's generation
   * succeeded: a failure never aborts the loop, and upscaling keeps one
   * image per generated one.
   */
  lemma SomeImageIffSomeSuccess<C>(p: Pipeline<C>, req: Request, env: Collaborators<C>)
    ensures |FinalImages(p, req, env)| > 0 <==> SomeVariantSucceeds(p, req, env)
  {
    var os := Attempts(req.numImages, req.seed, req.varianceSeed, (i: nat, g: Option<int>) => env.pipe(p, i, g));
    var positions := SuccessPositions(os);
    assert |FinalImages(p, req, env)| == |Successes(os)|;
    if |Successes(os)| > 0 {
      var i := positions[0];
      assert os[i].Generated?;
      assert env.pipe(p, i, VariantSeed(req.seed, req.varianceSeed, i)).Generated?;
    }
    if SomeVariantSucceeds(p, req, env) {
      var i :| 0 <= i < req.numImages && env.pipe(p, i, VariantSeed(req.seed, req.varianceSeed, i)).Generated?;
      assert os[i].Generated?;
      assert i in positions;
    }
  }

  /**
   * The first image of the final list comes from the first variant that
   * succeeded, upscaled according to the first resize: failed variants
   * leave no gap, and upscaling keeps the images in place.
   */
  lemma {:induction false} FirstImageIsFirstSurvivor<C>(p: Pipeline<C>, req: Request, env: Collaborators<C>)
    ensures forall j: nat :: FirstSuccessAt(p, req, env, j) ==>
      && |FinalImages(p, req, env)| > 0
      && FinalImages(p, req, env)[0]
         == Delivered(env.pipe(p, j, VariantSeed(req.seed, req.varianceSeed, j)).image, req.upscaleFactor, env.resized(0))
  {
    var os := Attempts(req.numImages, req.seed, req.varianceSeed, (i: nat, g: Option<int>) => env.pipe(p, i, g));
    var positions := SuccessPositions(os);
    var generated := Successes(os);
    forall j: nat | FirstSuccessAt(p, req, env, j)
      ensures |FinalImages(p, req, env)| > 0
      ensures FinalImages(p, req, env)[0]
              == Delivered(env.pipe(p, j, VariantSeed(req.seed, req.varianceSeed, j)).image, req.upscaleFactor, env.resized(0))
    {
      assert os[j].Generated?;
      assert j in positions;
      var k :| 0 <= k < |positions| && positions[k] == j;
      var first := positions[0];
      assert os[first] == env.pipe(p, first, VariantSeed(req.seed, req.varianceSeed, first));
      assert j <= first;
      assert k == 0;
      assert first == j;
      assert generated[0] == os[j].image;
      assert FinalImages(p, req, env) == UpscaleImages(generated, req.upscaleFactor, env.resized);
    }
  }

  /**
   * After a CUDA runtime error while building the base pipeline for an
   * adapter, the retry runs on the CPU in single precision, while the
   * offload choice still reflects the GPU the request started on.
   */
  lemma CudaErrorRetriesOnCpu<C>(settings: Settings, env: Collaborators<C>)
    requires env.baseLoad == CudaRuntimeError && env.cpuRetry
    ensures LoadPipeline(Lora, settings, env).Ready?
    ensures LoadPipeline(Lora, settings, env).pipeline.device == Cpu
    ensures LoadPipeline(Lora, settings, env).pipeline.precision == Float32
  {
  }

  /**
   * With a scale factor of at most one and a successful first variant,
   * the returned image is exactly the first variant's image.
   */
  lemma {:induction false} UnscaledReturnsFirstVariant<C>(req: Request, settings: Settings, env: Collaborators<C>)
    requires req.upscaleFactor <= 1 && req.numImages > 0
    requires LoadPipeline(req.kind, settings, env).Ready?
    requires var p := LoadPipeline(req.kind, settings, env).pipeline;
             env.pipe(p.(scheduler := ApplySampler(p.scheduler, req.sampler)), 0, req.seed).Generated?
    ensures var p := LoadPipeline(req.kind, settings, env).pipeline;
            ApplyStyle(req, settings, env)
            == Returned(Some(env.pipe(p.(scheduler := ApplySampler(p.scheduler, req.sampler)), 0, req.seed).image))
  {
    var p := LoadPipeline(req.kind, settings, env).pipeline;
    var swapped := p.(scheduler := ApplySampler(p.scheduler, req.sampler));
    var os := Attempts(req.numImages, req.seed, req.varianceSeed, (i: nat, g: Option<int>) => env.pipe(swapped, i, g));
    var positions := SuccessPositions(os);
    assert os[0].Generated?;
    assert 0 in positions;
    assert Successes(os)[0] == os[0].image;
  }
}
