/**
 * The weights-file classifier: decides from the key names and the file
 * size whether a `.safetensors` file is a LoRA adapter or a full
 * checkpoint.
 */
module ModelType {
  import opened Text

  datatype ModelKind = Lora | FullModel | Unknown

  const GiB: nat := 1024 * 1024 * 1024

  /** Substrings that mark a key as belonging to a LoRA adapter. */
  const LoraMarkers: seq<string> := ["lora_unet", "lora_te", "alpha", "rank"]

  /** Substrings that mark a key as belonging to a full checkpoint. */
  const FullMarkers: seq<string> := ["model.diffusion_model", "first_stage_model", "cond_stage_model"]

  /**
   * What opening the weights file yields: its key names and its size in
   * bytes, or an exception from reading the tensors or stating the file.
   */
  datatype WeightsFile = Readable(keys: seq<string>, sizeBytes: nat) | Unreadable

  /** Some key contains some marker as a substring. */
  predicate AnyKeyMatches(keys: seq<string>, markers: seq<string>) {
    exists i, j :: 0 <= i < |keys| && 0 <= j < |markers| && Contains(markers[j], keys[i])
  }

  /**
   * The classification. A LoRA marker or a size under 1 GiB decides
   * `Lora`; otherwise a full-checkpoint marker or a size over 2 GiB decides
   * `FullModel`; the remaining case falls back to the size test again.
   * The size in GiB is compared as a float in app.py; dividing by a
   * power of two is exact, so comparing bytes is the same test.
   */
  function DetectModelType(f: WeightsFile): (r: ModelKind)
    ensures r == Unknown <==> f.Unreadable?
    ensures r == Lora <==> f.Readable? && (AnyKeyMatches(f.keys, LoraMarkers) || f.sizeBytes < GiB)
    ensures r == FullModel <==> f.Readable? && !AnyKeyMatches(f.keys, LoraMarkers) && f.sizeBytes >= GiB
  {
    match f
    case Unreadable => Unknown
    case Readable(keys, size) =>
      var hasLoraKeys := AnyKeyMatches(keys, LoraMarkers);
      var hasFullKeys := AnyKeyMatches(keys, FullMarkers);
      if hasLoraKeys || size < GiB then Lora
      else if hasFullKeys || size > 2 * GiB then FullModel
      else if size < GiB then Lora else FullModel
  }

  /**
   * The full-checkpoint markers never influence the outcome: two readable
   * files that agree on the LoRA test and on the size are classified alike.
   */
  lemma FullMarkersNeverDecide(keys1: seq<string>, keys2: seq<string>, size: nat)
    requires AnyKeyMatches(keys1, LoraMarkers) == AnyKeyMatches(keys2, LoraMarkers)
    ensures DetectModelType(Readable(keys1, size)) == DetectModelType(Readable(keys2, size))
  {
  }

  /**
   * A LoRA marker wins even on a file far above 2 GiB that also carries
   * every full-checkpoint marker.
   */
  lemma LoraMarkerBeatsSizeAndFullKeys()
    ensures DetectModelType(Readable(["lora_unet_down.weight"] + FullMarkers, 7 * GiB)) == Lora
  {
    var keys := ["lora_unet_down.weight"] + FullMarkers;
    assert Contains(LoraMarkers[0], keys[0]);
  }

  /**
   * Markers are matched as plain substrings, so a key such as
   * `alphas_cumprod` (a buffer stored in full Stable Diffusion checkpoints)
   * counts as a LoRA marker and turns a multi-gigabyte file into `Lora`.
   */
  lemma SubstringMarkerMatchesCheckpointBuffer()
    ensures DetectModelType(Readable(["alphas_cumprod", "model.diffusion_model.out.weight"], 6 * GiB)) == Lora
  {
    var keys := ["alphas_cumprod", "model.diffusion_model.out.weight"];
    assert Contains(LoraMarkers[2], keys[0]);
  }
}
