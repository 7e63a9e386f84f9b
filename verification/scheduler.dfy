/** The sampler-name to scheduler-class table and the swap it drives. */
module Scheduler {
  import opened Optional

  datatype SchedulerKind =
    | DPMSolverMultistep
    | EulerDiscrete
    | EulerAncestralDiscrete
    | DDIM
    | LMSDiscrete
    | PNDM

  /** The class name of a scheduler kind; the table is keyed by these names. */
  function ClassName(k: SchedulerKind): string {
    match k
    case DPMSolverMultistep => "DPMSolverMultistepScheduler"
    case EulerDiscrete => "EulerDiscreteScheduler"
    case EulerAncestralDiscrete => "EulerAncestralDiscreteScheduler"
    case DDIM => "DDIMScheduler"
    case LMSDiscrete => "LMSDiscreteScheduler"
    case PNDM => "PNDMScheduler"
  }

  /** The table lookup: a sampler name that is not a key yields nothing. */
  function Lookup(sampler: string): (r: Option<SchedulerKind>)
    ensures r.Some? ==> ClassName(r.value) == sampler
  {
    if sampler == "DPMSolverMultistepScheduler" then Some(DPMSolverMultistep)
    else if sampler == "EulerDiscreteScheduler" then Some(EulerDiscrete)
    else if sampler == "EulerAncestralDiscreteScheduler" then Some(EulerAncestralDiscrete)
    else if sampler == "DDIMScheduler" then Some(DDIM)
    else if sampler == "LMSDiscreteScheduler" then Some(LMSDiscrete)
    else if sampler == "PNDMScheduler" then Some(PNDM)
    else None
  }

  /** Every kind is reachable from its own name, so the table is a bijection onto its keys. */
  lemma LookupClassName(k: SchedulerKind)
    ensures Lookup(ClassName(k)) == Some(k)
  {
  }

  /** A pipeline's scheduler: its class and the configuration it was built from. */
  datatype Scheduler<C> = Scheduler(className: string, config: C)

  /**
   * Replaces the scheduler by the named class built from the current
   * configuration; an unknown sampler name leaves the scheduler as it is.
   */
  function ApplySampler<C>(current: Scheduler<C>, sampler: string): (r: Scheduler<C>)
    ensures r.config == current.config
    ensures Lookup(sampler).Some? ==> r.className == sampler
    ensures Lookup(sampler).None? ==> r == current
  {
    match Lookup(sampler)
    case Some(k) => Scheduler(ClassName(k), current.config)
    case None => current
  }

  /** Applying the same sampler twice is the same as applying it once. */
  lemma ApplySamplerIdempotent<C>(s: Scheduler<C>, sampler: string)
    ensures ApplySampler(ApplySampler(s, sampler), sampler) == ApplySampler(s, sampler)
  {
  }
}
