# Neural Art Studio — a Dafny model of its decision core

Neural Art Studio is a Streamlit application that restyles an uploaded
picture with a Stable Diffusion XL img2img pipeline, either from a base
model with a LoRA adapter or from a full `.safetensors` checkpoint. A
redesigned React front end keeps a list of style presets. This project
models the parts of both that make decisions, and proves what those
decisions guarantee:

- which compute device is chosen, at which precision, and whether CPU
  offload is switched on (`Device`);
- how a weights file is classified as a LoRA adapter or a full model
  (`ModelType`);
- how the pipeline is loaded, including the CUDA-error retry on the CPU
  and the adapter fallbacks, and what `apply_style` finally returns
  (`Style`);
- the sampler-to-scheduler swap (`Scheduler`);
- per-variant seeds, the generation loop that skips failed variants, and
  the choice of the first result (`Variants`);
- upscaling with its per-image fallback to the original (`Upscale`);
- the progress values reported during generation and upscaling, and the
  three-bar split of the progress value in the UI (`Progress`);
- the thumbnail grid (`Gallery`);
- favourites and saved presets kept in the session (`Session`);
- the listing of LoRA and full models on the persistent volumes
  (`ModelList`);
- saving and deleting custom presets in the React controls
  (`PresetControls`).

Supporting modules: `Optional` (an option type), `Text` (ASCII lower-case,
substring search, path basename and join, JavaScript `trim`, decimal
rendering, code-point string order) and `Sorting` (a stable insertion sort
by a string key, the behaviour of Python's `sorted` with a `key`).

Everything the program obtains from the outside world is a parameter:
whether CUDA is available and what the probe measured, environment
variables, whether a path exists (`present`), the directory walk (`walk`),
the outcome of each loader call, the diffusion pipeline itself (`pipe`,
returning a generated image or a failure), whether a resize succeeded
(`resized`), and the clock in the React controls (`now`).

Points of the code that the model follows closely:

- `detect_model_type` decides LoRA first: any key containing a LoRA
  marker, or a size below 1 GiB, gives `lora` (app.py:633-634), so a
  7 GiB checkpoint whose keys contain `alpha` is classified as LoRA.
  Every other readable file is a full model, because the final branch
  (app.py:637-639) is reached only with a size of at least 1 GiB and so
  can only yield `full_model`. `unknown` comes only from the exception
  handler (app.py:641-643). `ModelType.DetectModelType` and the lemmas
  after it state this.
- Sizes are compared exactly: `bytes / 1024**3 < 1.0` is modelled as
  `bytes < 2^30` and `< 4` as `bytes < 4 * 2^30`.
- `apply_style` returns only the first surviving variant (app.py:855),
  upscaled by the first iteration of the resize loop (app.py:838-848);
  the other variants are generated, upscaled and then dropped.
  `Style.ApplyStyle` states which image comes back in terms of the
  variants' own outcomes.

## Model

| member | source | states |
|---|---|---|
| Device.OptimalDevice | app.py:568-587 | CUDA exactly when CPU is not forced, CUDA is available and the probe measured at least 4 GiB; forcing and unavailability give their own reasons; the CUDA-error reason exactly when the probe raised; an insufficient-memory reason carries less than 4 GiB; the GPU reason exactly with CUDA |
| Device.MoreMemoryNeverDemotes | app.py:580-584 | if some amount of GPU memory selects CUDA, every larger amount does too |
| Device.PrecisionFor | app.py:649 | half precision exactly on CUDA, single precision on the CPU |
| Device.EnvFlag | app.py:25-28 | a set variable is a true flag exactly when it lower-cases to `true`; an unset one takes its default through the same test |
| Device.EnvFlagExamples | app.py:25-28 | boolean environment flags accept any capitalisation of `true`, reject other text such as `1`, and fall back to the default when unset |
| Device.EnvFlagIsTrueInAnyCase | app.py:25-28 | a set variable is a true flag exactly when it is the four letters of `true`, each in either case |
| Device.CpuOffload | app.py:670-673 | in `auto` mode offload is on for the CPU and, on CUDA, exactly when CUDA is available and the card is below the ceiling; any other mode is read as a boolean flag |
| Device.AutoOffloadOffOnlyOnLargeCard | app.py:670-671 | in `auto` mode offload is off exactly on CUDA with a card of at least the ceiling, or with CUDA no longer reported available |
| Device.MoreMemoryNeverAddsOffload | app.py:670-673 | a larger card never switches offload on, in any mode |
| Device.FlagModeIgnoresHardware | app.py:672-673 | outside `auto` mode the decision ignores the device, CUDA availability, the card and the ceiling |
| Device.CapitalisedAutoDisablesOffload | app.py:670-673 | `auto` is matched case-sensitively, so `AUTO` is read as a false flag and turns offload off whatever the device |
| Device.DefaultPolicy | app.py:670-673 | with the shipped defaults the pipeline runs wholly on the GPU, without offload, exactly when CUDA is available and the probe measured at least 8 GiB |
| ModelType.DetectModelType | app.py:616-643 | `unknown` exactly on a read error; `lora` exactly when some key contains a LoRA marker or the file is under 1 GiB; `full_model` exactly for every other readable file |
| ModelType.FullMarkersNeverDecide | app.py:629-639 | two files of one size whose keys agree on containing a LoRA marker are classified alike, whatever full-model keys either has |
| ModelType.LoraMarkerBeatsSizeAndFullKeys | app.py:626-634 | a 7 GiB file with full-model keys and one `lora_unet` key is classified as LoRA |
| ModelType.SubstringMarkerMatchesCheckpointBuffer | app.py:626-627 | markers match as substrings, so a 6 GiB checkpoint with an `alphas_cumprod` key is classified as LoRA |
| Scheduler.Lookup | app.py:774-781 | a found scheduler kind's class name equals the sampler name asked for |
| Scheduler.LookupClassName | app.py:774-781 | every one of the six scheduler kinds is found by its class name |
| Scheduler.ApplySampler | app.py:783-784 | the scheduler configuration is always kept; a known sampler replaces the class, an unknown one leaves the scheduler unchanged |
| Scheduler.ApplySamplerIdempotent | app.py:783-784 | swapping to the same sampler twice equals swapping once |
| Variants.VariantSeed | app.py:793-799 | no generator without a seed; variant 0 and runs without a variance seed use the seed itself; otherwise the seed is offset by less than 2147483647 |
| Variants.VariantSeedCanPassInt32 | app.py:798 | a 32-bit seed plus the offset can exceed the signed 32-bit range |
| Variants.VarianceMultipleOfModulusCollapses | app.py:798 | a variance seed that is a multiple of 2147483647 gives every variant the base seed |
| Variants.VariantSeedsIncreaseBeforeWrap | app.py:798 | while variance seed times index stays below the modulus, later variants get strictly larger seeds |
| Variants.SingleVariantIgnoresVarianceSeed | app.py:790-799 | with one variant the variance seed has no effect on the seeds used |
| Variants.SuccessPositions | app.py:813-829 | each kept image comes from a successful attempt, in strictly increasing attempt order, and every successful attempt is kept |
| Variants.FailureDropsImage | app.py:827-829 | one failed attempt is enough for the run to return fewer images than attempts |
| Variants.AllSucceed | app.py:813-825 | when every attempt succeeds, all n images are kept in order |
| Variants.FirstResult | app.py:855 | nothing is returned exactly when no variant survived; otherwise the first survivor |
| Variants.GenerateVariants | app.py:789-829 | the loop returns exactly the successful attempts' images in order, at most n of them |
| Upscale.UpscaleAll | app.py:835-849 | one output per input; factor at most 1 leaves the list unchanged; otherwise each image is scaled by the factor or, when its resize fails, kept as it was |
| Upscale.UpscaleInvertible | app.py:840-844 | when every resize succeeds, dividing each output's dimensions by the factor gives back the inputs |
| Progress.VariantStart | app.py:809 | the progress reported at the start of each variant lies in [0.6, 0.85] |
| Progress.GenerationProgress | app.py:802-805 | a step's progress lies between its variant's start and the next variant's start, hence in [0.6, 0.85] |
| Progress.GenerationProgressMonotone | app.py:802-809 | progress never decreases across steps and variants of one run |
| Progress.UpscaleProgress | app.py:844-848 | upscale progress lies in [0.9, 0.95] |
| Progress.UpscaleProgressCanRecede | app.py:844-848 | a failed resize reports 0.95 and the next success reports less, so upscale progress can go backwards |
| Progress.SplitProgress | app.py:1141-1166 | each bar stays in [0, 1] for a progress value in [0, 1]; earlier bars are full once a later phase has started, later bars empty before it |
| Progress.SplitRecombine | app.py:1141-1166 | for any progress value, the three bars weighted 0.2, 0.65 and 0.15 add back up to it |
| Progress.SplitMonotone | app.py:1141-1166 | a larger progress value never shrinks any of the three bars |
| Style.LoadPipeline | app.py:667-768 | raises exactly for a LoRA base load with a non-CUDA error or a failed CPU retry; gives up exactly for an unknown type or a failed checkpoint load; a ready pipeline is on the CPU exactly when the device choice was CPU or a CUDA error forced the retry, with float16 only on CUDA, the adapter attached exactly when a LoRA adapter load succeeded, and offload computed from the device chosen before any retry |
| Style.ApplyStyle | app.py:646-855 | raises exactly when loading the pipeline raises, which only the LoRA path can do; an unknown type or a failed checkpoint returns nothing; once the pipeline is loaded the request always returns, and it returns an image exactly when some variant succeeded on the pipeline with the sampler applied; that image is the first succeeding variant's, multiplied in both dimensions by the factor when the factor is above one and the first resize succeeded, and unchanged otherwise |
| Style.FirstImageIsFirstSurvivor | app.py:813-849 | for every variant j that is the first to succeed, the final list is non-empty and its head is variant j's image, scaled by the factor exactly when the factor is above one and the first resize succeeded: failures leave no gap and upscaling keeps the order |
| Style.SomeImageIffSomeSuccess | app.py:789-855 | the final list is non-empty exactly when some variant's pipeline call succeeded with that variant's seed: failures are skipped and upscaling keeps one image per generated one |
| Style.CudaErrorRetriesOnCpu | app.py:691-703 | a CUDA runtime error during the base load followed by a working CPU load yields a ready float32 pipeline on the CPU |
| Style.UnscaledReturnsFirstVariant | app.py:789-855 | without upscaling, a successful first variant is exactly the returned image |
| Gallery.ColumnsPerRow | app.py:1271 | the row width is the smaller of four and the image count: at most both, equal to one of them, and positive when there are images |
| Gallery.RowsTight | app.py:1271-1272 | the rows hold every image and the last row is not empty |
| Gallery.FillRow | app.py:1276-1278 | filling a row extends the placed images by that row's images, up to the total, each at its row-major cell |
| Gallery.Layout | app.py:1271-1278 | every image gets exactly one cell, in row-major order, inside the grid, and the cell gives back the image's index |
| Session.AddFavorite | app.py:1046-1056 | an empty or already present name leaves the list unchanged; otherwise it is appended; the list only grows and never gains a duplicate |
| Session.AddFavoriteIdempotent | app.py:1050-1054 | adding the same favourite twice equals adding it once |
| Session.RemoveFavorite | app.py:1078-1080 | removes exactly one occurrence, the first: the list is the old list with that element taken out at its first position |
| Session.RemoveFavoriteDeletes | app.py:1078-1080 | on a duplicate-free list the name is gone afterwards, every other name stays, and the list stays duplicate-free |
| Session.RemoveUndoesAdd | app.py:1046-1080 | removing a favourite just added to a list that lacked it restores the list exactly |
| Session.LookupPreset | app.py:1063-1064 | a lookup fails exactly for an unsaved name, and otherwise returns the stored settings of that name |
| Session.SavePreset | app.py:1021-1043 | an empty name changes nothing; a new name is appended at the end; saving under an existing name keeps the order of names |
| Session.SaveThenLookup | app.py:1038-1040 | after saving under a non-empty name, looking it up gives the saved settings, and every other name looks up as before |
| Session.SaveKeepsNamesUnique | app.py:1038-1040 | the preset names stay free of duplicates, as the keys of a dictionary are |
| ModelList.DetectVolumePaths | app.py:470-488 | the result is exactly the existing candidate volume paths, as a subsequence of the candidates in declaration order |
| ModelList.DisplayNameBranchesAgree | app.py:507 | both branches of the display-name conditional build the same text |
| ModelList.Dedupe | app.py:509-516 | the kept entries have distinct paths, every path offered is kept, each kept entry is the first one with its path, and the kept entries are a subsequence of the scan in scan order |
| ModelList.ListModels | app.py:490-520 | the menu is ordered by display name and no two entries share a path |
| ModelList.ListModelsSound | app.py:490-520 | every listed model comes from the configured path or a detected volume path that exists and whose lower-cased text contains the needle, and its path ends in `.safetensors` |
| ModelList.ListModelsDistinct | app.py:509-516 | no path is listed twice |
| ModelList.ListModelsComplete | app.py:490-520 | every eligible file under a scanned search path is listed, and each listed entry is the first candidate found with its path |
| ModelList.ListModelsOrdered | app.py:520 | the list is ordered by display name, and entries with equal names keep their discovery order |
| ModelList.NeedleMatchIgnoresCase | app.py:498 | the needle is matched against the lower-cased path: `/Volumes/LoRA` is scanned for LoRA models, while `/data/loras` is not scanned for full models |
| ModelList.LoraModels | app.py:490-520 | every adapter listed comes from an existing search path whose lower-cased text contains `lora`, is a `.safetensors` file, and the list is ordered by name |
| ModelList.FullModels | app.py:522-552 | every checkpoint listed comes from an existing search path whose lower-cased text contains `model`, is a `.safetensors` file, and the list is ordered by name |
| Sorting.SortBySorted | app.py:520 | sorting by a key yields a list ordered by that key |
| Sorting.SortByStable | app.py:520 | the sort is stable: entries with equal keys keep their relative order |
| Text.TrimEmptyIffAllSpace | temp_redesign/src/components/ModelControls.tsx:54 | a trimmed name is empty exactly when every character is JavaScript white space |
| Text.DecimalRoundTrip | temp_redesign/src/components/ModelControls.tsx:56 | reading back the digits rendered for a clock value gives that value |
| PresetControls.CustomId | temp_redesign/src/components/ModelControls.tsx:56 | a saved preset's id is `custom-` followed by the decimal digits of the clock value |
| PresetControls.CustomIdInjective | temp_redesign/src/components/ModelControls.tsx:56 | ids from different clock values differ, so only saves at the same clock value collide |
| PresetControls.AllPresets | temp_redesign/src/components/ModelControls.tsx:51 | the rendered list holds the four built-in presets first and then every saved preset, each group in its own order |
| PresetControls.SaveCurrentPreset | temp_redesign/src/components/ModelControls.tsx:53-66 | a blank name leaves everything unchanged; otherwise a preset with the trimmed name is appended and selected, the name field is cleared and the form closed |
| PresetControls.BlankNameIsRefused | temp_redesign/src/components/ModelControls.tsx:54 | a name of white space only saves nothing |
| PresetControls.Without | temp_redesign/src/components/ModelControls.tsx:69 | a preset is kept exactly when its id differs from the deleted id |
| PresetControls.WithoutAppend | temp_redesign/src/components/ModelControls.tsx:69 | filtering by id distributes over concatenation, so the surviving presets keep their relative order |
| PresetControls.WithoutAbsent | temp_redesign/src/components/ModelControls.tsx:69 | deleting an id no saved preset carries leaves the saved list exactly as it was |
| PresetControls.DeletePreset | temp_redesign/src/components/ModelControls.tsx:68-73 | removes every saved preset with the id; a deleted selection falls back to `balanced`; any other selection is kept |
| PresetControls.DefaultsSurvive | temp_redesign/src/components/ModelControls.tsx:177-189 | built-in presets never show a delete button and no delete removes them from the list of all presets |
| PresetControls.SaveKeepsCustomIds | temp_redesign/src/components/ModelControls.tsx:53-66 | saved presets only ever carry `custom-` ids |
| PresetControls.DeleteKeepsCustomIds | temp_redesign/src/components/ModelControls.tsx:68-73 | deleting keeps every saved preset's id a `custom-` id |
| PresetControls.DeleteUndoesSave | temp_redesign/src/components/ModelControls.tsx:53-73 | deleting the preset just saved, when no earlier preset shared its id, restores the saved list and moves the selection to `balanced` |
| PresetControls.SameClockIdsCollide | temp_redesign/src/components/ModelControls.tsx:56 | two saves at the same clock value produce the same id, so one delete removes both |

## Left out

- The Streamlit page, its CSS, widgets, messages and the React markup and
  icons: layout and text only, no decisions.
- torch, diffusers and PIL internals: a loaded pipeline is a record of its
  settings, generation is the `pipe` parameter, and an image is its width
  and height; pixel content and LANCZOS resampling are not modelled.
- File-system access: `os.path.exists`, `os.walk`, `getsize` and the
  weights reader are parameters; directory creation with fallbacks
  (app.py:452-468) and upload writes are not modelled.
- A `PermissionError` part-way through a walk keeps the entries found
  before it; the model treats a walk as all-or-nothing.
- Only `PermissionError` is caught in the list functions (app.py:517,
  549). Any other error while scanning, such as `FileNotFoundError` from
  `os.path.getsize` (app.py:504) on a dangling `.safetensors` link, leaves
  both list functions with an exception. The model has no such outcome:
  every walked file carries a size.
- Progress.GenerationProgress: requires that the step index the diffusion
  library passes to the callback is at most the requested step count
  (app.py:802-805). The application never checks this; without it the
  bound [0.6, 0.85] does not hold.
- `get_system_info`, the deployment script and the other React components
  are outside this model.
- Style.ApplyStyle: assumes that every call outside the pipeline-loading
  try and the per-variant try succeeds, and so promises that a request
  whose pipeline is ready always returns. The calls assumed not to raise
  are the progress callback wherever it is called (app.py:656, 677, 708,
  721, 771, 786, 809, 832, 836, 845, 847, 852), the cache clearing and
  synchronisation on CUDA (app.py:660-661), the device-properties read in
  the automatic offload decision (app.py:671), the slicing, offload and
  `pipe.to` calls on the adapter path (app.py:711-718), the scheduler swap
  (app.py:783-784), the seeded generator (app.py:799, which sits before
  the per-variant try and would abort the request rather than skip the
  variant) and the cleanup in the `finally` block. On the checkpoint path
  the slicing, offload and `pipe.to` calls sit inside the try at
  app.py:742-765, and their failure is covered as a failed checkpoint
  load.
- Upscale.UpscaleAll: its one-output-per-input promise assumes the
  progress callback at app.py:845 does not raise; if it did, after the
  resized image was appended, the handler at app.py:847-848 would append
  the original as well and the image would appear twice.
- `PYTORCH_CUDA_ALLOC_CONF`, cache clearing and garbage collection have no
  effect on the modelled results.
- Progress text messages and the percentage strings are left out; progress
  values are exact reals, without floating-point rounding.
- Progress.SplitProgress: the bound [0, 1] holds in exact reals only. The
  final `progress_callback(1.0)` (app.py:852) puts the third bar at
  `(1.0 - 0.85) / 0.15` (app.py:1164), which in IEEE binary64 evaluates to
  1.0000000000000002, just above one; the model does not capture this
  overshoot.
- `MAX_MEMORY_GB` is taken as an already parsed real; a malformed value,
  which makes the program fail at start-up, is not modelled.
- Text.Lower: lower-cases ASCII letters only, while Python's `str.lower`
  also folds other scripts; every constant compared against is ASCII.
- Session.LookupPreset: loading a preset copies each setting into the
  session under a `preset_` prefix (app.py:1066-1067); the model stops at
  looking up the stored settings.
- The gallery shows the same returned image in every thumbnail; only the
  grid positions are modelled.
- The millisecond clock (`Date.now()`) behind custom preset ids is the
  `now` parameter.
