/**
 * The noise configuration: the `noisevar` string list is normalised to one
 * entry per spectral band and turned into one zero-mean normal distribution
 * per band, in band order.
 */
module NoiseConfig {
  import opened Common

  /** A normal distribution as `std::normal_distribution<>(mean, stddev)` is built. */
  datatype NormalDistribution = NormalDistribution(mean: real, stddev: real)

  datatype NoiseError =
    | VarianceCountMismatch(given: nat, bands: nat)  // neither one value nor one per band
    | BadVariance(band: nat)                         // `boost::lexical_cast<double>` throws

  /**
   * Builds the per-band noise generators from the `noisevar` strings. A single
   * string stands for every band; any other count different from `nbBands`
   * is an error; each string is converted with `cast` (None when the
   * conversion throws) and its value becomes the distribution's second
   * argument, which is its standard deviation.
   */
  method BuildNoiseGenerators(varStr: seq<string>, nbBands: nat, cast: string -> Option<real>)
    returns (r: Result<seq<NormalDistribution>, NoiseError>)
    ensures |varStr| != 1 && |varStr| != nbBands ==> r == Failure(VarianceCountMismatch(|varStr|, nbBands))
    ensures r.Success? ==>
      |r.value| == nbBands &&
      forall i :: 0 <= i < nbBands ==>
        r.value[i].mean == 0.0 &&
        Some(r.value[i].stddev) == cast(if |varStr| == 1 then varStr[0] else varStr[i])
    ensures r.Failure? && r.error.BadVariance? ==>
      r.error.band < nbBands &&
      cast(if |varStr| == 1 then varStr[0] else varStr[r.error.band]).None? &&
      forall i :: 0 <= i < r.error.band ==> cast(if |varStr| == 1 then varStr[0] else varStr[i]).Some?
    ensures (|varStr| == 1 || |varStr| == nbBands) && r.Failure? ==> r.error.BadVariance?
    ensures (|varStr| == 1 || |varStr| == nbBands) ==>
      (r.Success? <==> forall i :: 0 <= i < nbBands ==> cast(if |varStr| == 1 then varStr[0] else varStr[i]).Some?)
  {
    var vs := varStr;
    if |vs| == 1 {
      vs := seq(nbBands, _ => varStr[0]);
    } else if |vs| != nbBands {
      return Failure(VarianceCountMismatch(|vs|, nbBands));
    }
    var noiseGenerators: seq<NormalDistribution> := [];
    assert |vs| == nbBands;
    assert forall k :: 0 <= k < |vs| ==> vs[k] == if |varStr| == 1 then varStr[0] else varStr[k];
    for i := 0 to |vs|
      invariant |noiseGenerators| == i
      invariant forall k :: 0 <= k < i ==> cast(vs[k]).Some? && noiseGenerators[k] == NormalDistribution(0.0, cast(vs[k]).value)
    {
      var v := cast(vs[i]);
      if v.None? {
        return Failure(BadVariance(i));
      }
      noiseGenerators := noiseGenerators + [NormalDistribution(0.0, v.value)];
    }
    return Success(noiseGenerators);
  }
}
