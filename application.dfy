/**
 * The ProSailSimulator application's `DoExecute`: it resolves the
 * acquisition angles, builds the noise configuration, reads the sample
 * table, picks the thread count, partitions the samples, runs one worker
 * per block, and writes every result slot to the simulations file in slot
 * order.
 *
 * The response-function file only contributes its column count `cols`
 * (the band count is `cols - 2`). The metadata helper's answers for the
 * `xml` product are given as a `MetadataAngles` value. Where the C++ code
 * has undefined behaviour (a zero thread count divides by zero; the
 * partition iterators leave the vectors) the model stops with a `Failed`
 * status naming it.
 */
module Application {
  import opened Common
  import opened SampleTable
  import opened NoiseConfig
  import opened ThreadCount
  import opened Partition
  import opened Worker
  import opened Output

  /** The application parameters `DoExecute` reads; `None` is a parameter that is not enabled. */
  datatype Parameters = Parameters(
    solarZenith: real,
    solarZenithF: Option<real>,
    sensorZenith: real,
    azimuth: real,
    noiseVar: Option<seq<string>>,
    threads: Option<int>)

  datatype MeanAngles = MeanAngles(zenith: real, azimuth: real)

  /** What the metadata helper answers for the product given as `xml`. */
  datatype MetadataAngles = MetadataAngles(
    solarMeanAngles: MeanAngles,
    relativeAzimuth: real,
    hasBandMeanAngles: bool,
    sensorBand0MeanAngles: MeanAngles,
    hasGlobalMeanAngles: bool,
    sensorGlobalMeanAngles: MeanAngles)

  /** The collaborators the model takes as given. */
  datatype Externals = Externals(
    nVars: nat,                                       // |IVNames|
    parseNumber: seq<char> -> real,                   // `>>` into a double
    unsetField: real,                                 // a double never assigned
    castVariance: string -> Option<real>,             // `boost::lexical_cast<double>`, None when it throws
    prosail: (AcquisitionPars, Sample) -> Simulation, // the ProSail functor
    noise: (nat, nat) -> real,                        // draw for (result slot, band)
    formatNumber: real -> seq<char>)                  // `<<` of a double

  datatype ExecError =
    | NoiseConfigError(noise: NoiseError)
    | ZeroThreads        // `sampleCount / num_threads` with no thread
    | BlocksOutOfRange   // the partition iterators leave the vectors

  datatype Status = Done | Failed(error: ExecError)

  /** The metadata replaces the explicit angles only when it has band or global sensor angles. */
  predicate HasAngles(xml: Option<MetadataAngles>)
  {
    xml.Some? && (xml.value.hasBandMeanAngles || xml.value.hasGlobalMeanAngles)
  }

  /** `prosailPars` as `DoExecute` sets them. */
  function ResolvedPars(p: Parameters, xml: Option<MetadataAngles>): AcquisitionPars
  {
    var fapar := if p.solarZenithF.Some? then p.solarZenithF.value else p.solarZenith;
    if HasAngles(xml) then
      var md := xml.value;
      var sensor := if md.hasBandMeanAngles then md.sensorBand0MeanAngles else md.sensorGlobalMeanAngles;
      AcquisitionPars(md.solarMeanAngles.zenith, fapar, sensor.zenith, md.relativeAzimuth)
    else
      AcquisitionPars(p.solarZenith, fapar, p.sensorZenith, p.azimuth)
  }

  /**
   * The metadata never changes the fAPAR solar zenith, which is
   * `solarzenithf` when given and the explicit `solarzenith` otherwise; band
   * 0 angles win over global ones; metadata without angles changes nothing.
   */
  lemma {:induction false} AngleSelection(p: Parameters, xml: Option<MetadataAngles>, other: Option<MetadataAngles>)
    ensures ResolvedPars(p, xml).ttsFapar == ResolvedPars(p, other).ttsFapar
    ensures ResolvedPars(p, xml).ttsFapar == if p.solarZenithF.Some? then p.solarZenithF.value else p.solarZenith
    ensures !HasAngles(xml) ==> ResolvedPars(p, xml) == ResolvedPars(p, None)
    ensures HasAngles(xml) && xml.value.hasBandMeanAngles ==> ResolvedPars(p, xml).tto == xml.value.sensorBand0MeanAngles.zenith
    ensures HasAngles(xml) && !xml.value.hasBandMeanAngles ==> ResolvedPars(p, xml).tto == xml.value.sensorGlobalMeanAngles.zenith
    ensures HasAngles(xml) ==> ResolvedPars(p, xml).tts == xml.value.solarMeanAngles.zenith && ResolvedPars(p, xml).psi == xml.value.relativeAzimuth
  {
  }

  /** Whether the noise configuration, if any, is accepted. */
  predicate NoiseAccepted(p: Parameters, nbBands: nat, cast: string -> Option<real>)
  {
    p.noiseVar.None? ||
    var vs := p.noiseVar.value;
    (|vs| == 1 || |vs| == nbBands) &&
    forall i :: 0 <= i < nbBands ==> cast(if |vs| == 1 then vs[0] else vs[i]).Some?
  }

  /**
   * The simulation phase of `DoExecute`: a result vector of one empty
   * result per sample, the thread count, the partition, one worker per
   * block, then the join. It succeeds exactly when the thread count is
   * positive and the partition is well defined, and then every slot but the
   * last holds its sample's simulation.
   */
  method SimulateSamples(bvVec: seq<Sample>, cfg: SimConfig, hardware: nat, threads: Option<int>)
    returns (r: Result<seq<Simulation>, ExecError>)
    requires WellSized(cfg)
    requires hardware < UintRange
    requires threads.Some? ==> -IntHalfRange <= threads.value < IntHalfRange
    requires |bvVec| < SizeRange
    ensures r.Success? <==> ThreadsUsed(hardware, threads) >= 1 && WellDefined(|bvVec|, ThreadsUsed(hardware, threads))
    ensures r.Failure? ==> r.error == if ThreadsUsed(hardware, threads) == 0 then ZeroThreads else BlocksOutOfRange
    ensures r.Success? ==> r.value == AsWrittenResults(Unset(|bvVec|), bvVec, cfg)
  {
    var sampleCount := |bvVec|;
    var simus := new Simulation[sampleCount](_ => []);
    var numThreads := EffectiveThreads(hardware, threads);
    if numThreads == 0 {
      return Failure(ZeroThreads);
    }
    var blocks := PartitionBlocks(sampleCount, numThreads);
    InBoundsIffWellDefined(sampleCount, numThreads);
    if !InBounds(blocks, sampleCount) {
      return Failure(BlocksOutOfRange);
    }
    ghost var initial := simus[..];
    assert initial == Unset(sampleCount);
    RunWorkers(bvVec, blocks, simus, cfg);
    AsWrittenRun(sampleCount, numThreads, bvVec, initial, cfg);
    return Success(simus[..]);
  }

  class ProSailSimulator {
    var azimuth: real
    var solarZenith: real
    var solarZenithFapar: real
    var sensorZenith: real
    var simulationsFile: seq<char>

    constructor ()
      ensures simulationsFile == []
    {
      simulationsFile := [];
    }

    function Pars(): AcquisitionPars
      reads this
    {
      AcquisitionPars(solarZenith, solarZenithFapar, sensorZenith, azimuth)
    }

    /** The angle members as `DoExecute` sets them from the parameters and the metadata. */
    method ResolveAngles(p: Parameters, xml: Option<MetadataAngles>)
      modifies this`azimuth, this`solarZenith, this`solarZenithFapar, this`sensorZenith
      ensures Pars() == ResolvedPars(p, xml)
    {
      azimuth := p.azimuth;
      solarZenith := p.solarZenith;
      solarZenithFapar := solarZenith;
      if p.solarZenithF.Some? {
        solarZenithFapar := p.solarZenithF.value;
      }
      sensorZenith := p.sensorZenith;
      if xml.Some? {
        var md := xml.value;
        var sensorBandAngles: MeanAngles;
        var hasAngles := true;
        if md.hasBandMeanAngles {
          sensorBandAngles := md.sensorBand0MeanAngles;
        } else if md.hasGlobalMeanAngles {
          sensorBandAngles := md.sensorGlobalMeanAngles;
        } else {
          hasAngles := false;
        }
        if hasAngles {
          solarZenith := md.solarMeanAngles.zenith;
          sensorZenith := sensorBandAngles.zenith;
          azimuth := md.relativeAzimuth;
        }
      }
    }

    /** `WriteSimulation`: every value followed by a space, then the end of line. */
    method WriteSimulation(simu: Simulation, format: real -> seq<char>)
      modifies this`simulationsFile
      ensures simulationsFile == old(simulationsFile) + Line(simu, format)
    {
      ghost var before := simulationsFile;
      for i := 0 to |simu|
        invariant simulationsFile == before + Fields(simu[..i], format)
      {
        FieldsAppend(simu[..i], simu[i], format);
        assert simu[..i + 1] == simu[..i] + [simu[i]];
        simulationsFile := simulationsFile + format(simu[i]) + [' '];
      }
      assert simu[..|simu|] == simu;
      simulationsFile := simulationsFile + ['\n'];
    }

    /** The output loop: `WriteSimulation` for every result, in order. */
    method WriteSimulations(simus: seq<Simulation>, format: real -> seq<char>)
      modifies this`simulationsFile
      ensures simulationsFile == old(simulationsFile) + Serialise(simus, format)
    {
      ghost var before := simulationsFile;
      for i := 0 to |simus|
        invariant simulationsFile == before + Serialise(simus[..i], format)
      {
        SerialiseAppend(simus[..i], simus[i], format);
        assert simus[..i + 1] == simus[..i] + [simus[i]];
        WriteSimulation(simus[i], format);
      }
      assert simus[..|simus|] == simus;
    }

    /**
     * `DoExecute`. A noise list of the wrong length fails before the sample
     * file is read and before the simulations file is created. A run that
     * completes writes one line per sample, in sample order, the last line
     * being that of an empty result because the last sample is never
     * simulated; it completes exactly when the noise list is accepted, the
     * thread count is positive and the partition is well defined.
     */
    method DoExecute(p: Parameters, xml: Option<MetadataAngles>, cols: nat, hardware: nat,
                     bvText: seq<char>, bvOpenOk: bool, ext: Externals) returns (status: Status)
      requires cols > 2
      requires forall a, s :: |ext.prosail(a, s)| == cols
      requires hardware < UintRange
      requires p.threads.Some? ==> -IntHalfRange <= p.threads.value < IntHalfRange
      requires |bvText| < SizeRange
      modifies this
      ensures Pars() == ResolvedPars(p, xml)
      ensures p.noiseVar.Some? && |p.noiseVar.value| != 1 && |p.noiseVar.value| != cols - 2 ==>
        status == Failed(NoiseConfigError(VarianceCountMismatch(|p.noiseVar.value|, cols - 2))) &&
        simulationsFile == old(simulationsFile)
      ensures !NoiseAccepted(p, cols - 2, ext.castVariance) ==>
        status.Failed? && status.error.NoiseConfigError? && simulationsFile == old(simulationsFile)
      ensures
        var bv := Samples(bvText, bvOpenOk, ext.nVars, ext.parseNumber, ext.unsetField);
        var numThreads := ThreadsUsed(hardware, p.threads);
        status.Done? <==>
          NoiseAccepted(p, cols - 2, ext.castVariance) && numThreads >= 1 && WellDefined(|bv|, numThreads)
      ensures status.Done? ==>
        var bv := Samples(bvText, bvOpenOk, ext.nVars, ext.parseNumber, ext.unsetField);
        var cfg := SimConfig(ext.prosail, ResolvedPars(p, xml), cols - 2, p.noiseVar.Some?, ext.noise);
        simulationsFile == Serialise(AsWrittenResults(Unset(|bv|), bv, cfg), ext.formatNumber)
    {
      ResolveAngles(p, xml);
      var nbBands := cols - 2;

      var addNoise := p.noiseVar.Some?;
      if addNoise {
        var noiseGenerators := BuildNoiseGenerators(p.noiseVar.value, nbBands, ext.castVariance);
        if noiseGenerators.Failure? {
          return Failed(NoiseConfigError(noiseGenerators.error));
        }
      }
      assert NoiseAccepted(p, nbBands, ext.castVariance);

      var sampleFile := new SampleFile.Open(bvText, bvOpenOk);
      simulationsFile := [];

      var prosailPars := Pars();
      var bvVec := ParseBvSampleFile(sampleFile, ext.nVars, ext.parseNumber, ext.unsetField);
      var cfg := SimConfig(ext.prosail, prosailPars, nbBands, addNoise, ext.noise);
      assert bvVec == Samples(bvText, bvOpenOk, ext.nVars, ext.parseNumber, ext.unsetField);
      assert cfg == SimConfig(ext.prosail, ResolvedPars(p, xml), cols - 2, p.noiseVar.Some?, ext.noise);
      assert |bvVec| <= NewlineCount(bvText) <= |bvText|;
      assert WellSized(cfg);
      var simus := SimulateSamples(bvVec, cfg, hardware, p.threads);
      if simus.Failure? {
        return Failed(simus.error);
      }
      WriteSimulations(simus.value, ext.formatNumber);
      status := Done;
    }
  }
}
