/**
 * The `simulator` lambda and the threads that run it. Each thread runs the
 * ProSail functor over its block of samples and stores each result, with
 * per-band noise added when noise is on, into the pre-sized result vector
 * at the aligned position. The threads are modelled as sequential calls,
 * one per block, in thread order.
 *
 * The functor is the caller-supplied `prosail`, applied to the acquisition
 * parameters and one sample. The noise drawn for band `b` of the result in
 * slot `j` is the caller-supplied `noise(j, b)`.
 */
module Worker {
  import opened ThreadCount
  import opened Partition

  /** One biophysical-variable sample: one value per variable, in enum order. */
  type Sample = seq<real>

  /** One simulation: the band reflectances, then fcover, then fapar. */
  type Simulation = seq<real>

  /** `prosailPars`: solar zenith, solar zenith for fAPAR, sensor zenith, azimuth. */
  datatype AcquisitionPars = AcquisitionPars(tts: real, ttsFapar: real, tto: real, psi: real)

  /** What every thread shares. */
  datatype SimConfig = SimConfig(
    prosail: (AcquisitionPars, Sample) -> Simulation,
    pars: AcquisitionPars,
    nbBands: nat,
    addNoise: bool,
    noise: (nat, nat) -> real)

  /** Every simulation holds `nbBands` reflectances and the two derived values. */
  ghost predicate WellSized(cfg: SimConfig)
  {
    forall s :: |cfg.prosail(cfg.pars, s)| == cfg.nbBands + 2
  }

  /** `s` with the noise of slot `slot` added to its first `count` entries. */
  function Noisy(s: Simulation, slot: nat, count: nat, noise: (nat, nat) -> real): Simulation
  {
    seq(|s|, b requires 0 <= b < |s| => if b < count then s[b] + noise(slot, b) else s[b])
  }

  /**
   * The result stored in slot `slot` for `sample`: the functor's output, where
   * noise only ever touches the `nbBands` reflectances, never fcover and fapar.
   */
  function Cell(cfg: SimConfig, sample: Sample, slot: nat): (r: Simulation)
    ensures |r| == |cfg.prosail(cfg.pars, sample)|
    ensures forall b :: cfg.nbBands <= b < |r| ==> r[b] == cfg.prosail(cfg.pars, sample)[b]
    ensures forall b :: 0 <= b < cfg.nbBands && b < |r| ==>
      r[b] == cfg.prosail(cfg.pars, sample)[b] + (if cfg.addNoise then cfg.noise(slot, b) else 0.0)
  {
    var s := cfg.prosail(cfg.pars, sample);
    if cfg.addNoise then Noisy(s, slot, cfg.nbBands, cfg.noise) else s
  }

  /** The result vector after one worker has run over block `b`. */
  function ApplyBlock(buf: seq<Simulation>, bv: seq<Sample>, b: Block, cfg: SimConfig): (r: seq<Simulation>)
    requires Fits(b, |bv|, |buf|)
    ensures |r| == |buf|
  {
    seq(|buf|, j requires 0 <= j < |buf| =>
      if Writes(b, j) then Cell(cfg, bv[b.first + (j - b.offset)], j) else buf[j])
  }

  /** Every block fits the sample and result vectors. */
  predicate AllFit(blocks: seq<Block>, samples: nat, slots: nat)
  {
    forall t :: 0 <= t < |blocks| ==> Fits(blocks[t], samples, slots)
  }

  /** The result vector after the workers of `blocks` have run, in that order. */
  function ApplyAll(buf: seq<Simulation>, bv: seq<Sample>, blocks: seq<Block>, cfg: SimConfig): (r: seq<Simulation>)
    requires AllFit(blocks, |bv|, |buf|)
    ensures |r| == |buf|
    decreases |blocks|
  {
    if blocks == [] then buf
    else ApplyBlock(ApplyAll(buf, bv, blocks[..|blocks| - 1], cfg), bv, blocks[|blocks| - 1], cfg)
  }

  /**
   * The `simulator` lambda: for each sample of [sampleFirst, sampleLast),
   * runs the functor, adds one noise value to each of the first `nbBands`
   * entries when noise is on, and stores the result at the next output
   * position from `simuFirst` on. Nothing else in `simus` changes.
   */
  method Simulate(bv: seq<Sample>, sampleFirst: int, sampleLast: int, simus: array<Simulation>, simuFirst: int, cfg: SimConfig)
    requires WellSized(cfg)
    requires Fits(Block(sampleFirst, sampleLast, simuFirst), |bv|, simus.Length)
    modifies simus
    ensures simus[..] == ApplyBlock(old(simus[..]), bv, Block(sampleFirst, sampleLast, simuFirst), cfg)
  {
    var first, out := sampleFirst, simuFirst;
    while first != sampleLast
      invariant sampleFirst <= first <= sampleLast
      invariant out == simuFirst + (first - sampleFirst)
      invariant forall j :: 0 <= j < simus.Length ==>
        simus[j] == if simuFirst <= j < out then Cell(cfg, bv[sampleFirst + (j - simuFirst)], j) else old(simus[j])
      decreases sampleLast - first
    {
      var simu := cfg.prosail(cfg.pars, bv[first]);
      if cfg.addNoise {
        for i := 0 to cfg.nbBands
          invariant simu == Noisy(cfg.prosail(cfg.pars, bv[first]), out, i, cfg.noise)
        {
          simu := simu[i := simu[i] + cfg.noise(out, i)];
        }
      }
      simus[out] := simu;
      first, out := first + 1, out + 1;
    }
  }

  /** The threads, one per block, run one after the other; the join waits for all. */
  method RunWorkers(bv: seq<Sample>, blocks: seq<Block>, simus: array<Simulation>, cfg: SimConfig)
    requires WellSized(cfg)
    requires AllFit(blocks, |bv|, simus.Length)
    modifies simus
    ensures simus[..] == ApplyAll(old(simus[..]), bv, blocks, cfg)
  {
    for t := 0 to |blocks|
      invariant simus[..] == ApplyAll(old(simus[..]), bv, blocks[..t], cfg)
    {
      Simulate(bv, blocks[t].first, blocks[t].last, simus, blocks[t].offset, cfg);
      assert blocks[..t + 1][..t] == blocks[..t];
    }
    assert blocks[..|blocks|] == blocks;
  }

  // ---------------------------------------------------------------------
  // Properties of the workers

  /** No two blocks write the same slot. */
  ghost predicate DisjointWrites(blocks: seq<Block>)
  {
    forall s, t, j :: 0 <= s < t < |blocks| && Writes(blocks[s], j) ==> !Writes(blocks[t], j)
  }

  /**
   * With disjoint write ranges, slot `j` ends up holding what the one block
   * writing it stores there, or its old value when no block writes it.
   */
  lemma {:induction false} ApplyAllAt(buf: seq<Simulation>, bv: seq<Sample>, blocks: seq<Block>, cfg: SimConfig, j: nat)
    requires AllFit(blocks, |bv|, |buf|) && DisjointWrites(blocks) && j < |buf|
    ensures (forall t :: 0 <= t < |blocks| ==> !Writes(blocks[t], j)) ==> ApplyAll(buf, bv, blocks, cfg)[j] == buf[j]
    ensures forall t :: 0 <= t < |blocks| && Writes(blocks[t], j) ==>
      ApplyAll(buf, bv, blocks, cfg)[j] == Cell(cfg, bv[blocks[t].first + (j - blocks[t].offset)], j)
    decreases |blocks|
  {
    if blocks != [] {
      var n := |blocks| - 1;
      var prefix := blocks[..n];
      var last := blocks[n];
      assert forall t :: 0 <= t < n ==> prefix[t] == blocks[t];
      assert AllFit(prefix, |bv|, |buf|);
      assert DisjointWrites(prefix);
      ApplyAllAt(buf, bv, prefix, cfg, j);
      var before := ApplyAll(buf, bv, prefix, cfg);
      assert ApplyAll(buf, bv, blocks, cfg) == ApplyBlock(before, bv, last, cfg);
      if Writes(last, j) {
        assert ApplyAll(buf, bv, blocks, cfg)[j] == Cell(cfg, bv[last.first + (j - last.offset)], j);
        assert forall t :: 0 <= t < n ==> !Writes(blocks[t], j);
      } else {
        assert ApplyAll(buf, bv, blocks, cfg)[j] == before[j];
      }
    }
  }

  /**
   * The order in which the threads run does not matter: any rearrangement
   * of blocks with disjoint write ranges leaves the same result vector.
   */
  lemma {:induction false} ApplyAllReorder(buf: seq<Simulation>, bv: seq<Sample>, blocks: seq<Block>, reordered: seq<Block>, cfg: SimConfig)
    requires AllFit(blocks, |bv|, |buf|) && DisjointWrites(blocks)
    requires AllFit(reordered, |bv|, |buf|) && DisjointWrites(reordered)
    requires multiset(blocks) == multiset(reordered)
    ensures ApplyAll(buf, bv, blocks, cfg) == ApplyAll(buf, bv, reordered, cfg)
  {
    var r1 := ApplyAll(buf, bv, blocks, cfg);
    var r2 := ApplyAll(buf, bv, reordered, cfg);
    forall j | 0 <= j < |buf|
      ensures r1[j] == r2[j]
    {
      ApplyAllAt(buf, bv, blocks, cfg, j);
      ApplyAllAt(buf, bv, reordered, cfg, j);
      if t :| 0 <= t < |blocks| && Writes(blocks[t], j) {
        assert blocks[t] in multiset(reordered);
        var u :| 0 <= u < |reordered| && reordered[u] == blocks[t];
      } else {
        forall u | 0 <= u < |reordered|
          ensures !Writes(reordered[u], j)
        {
          assert reordered[u] in multiset(blocks);
        }
      }
    }
  }

  /** Blocks that write where they read, and read disjoint ranges, write disjoint ranges. */
  lemma {:induction false} AlignedDisjoint(blocks: seq<Block>)
    requires forall i :: 0 <= i < |blocks| ==> blocks[i].offset == blocks[i].first
    requires forall i, i' :: 0 <= i < i' < |blocks| ==> blocks[i].last <= blocks[i'].first
    ensures DisjointWrites(blocks)
  {
  }

  /** Slot `j` after the run as written: simulated when j < N-1, untouched when j == N-1. */
  lemma {:induction false} AsWrittenSlot(n: nat, t: nat, bv: seq<Sample>, buf: seq<Simulation>, cfg: SimConfig, j: nat)
    requires 1 <= t < UintRange && n < SizeRange && WellDefined(n, t)
    requires |bv| == n && |buf| == n && j < n
    requires AllFit(Layout(n, t), n, n) && DisjointWrites(Layout(n, t))
    ensures ApplyAll(buf, bv, Layout(n, t), cfg)[j] == if j < n - 1 then Cell(cfg, bv[j], j) else buf[j]
  {
    var l := Layout(n, t);
    LayoutCoverage(n, t);
    ApplyAllAt(buf, bv, l, cfg, j);
    if j < n - 1 {
      var o := Owner(n, t, j);
      assert l[o] == BlockAt(n, t, o);
      assert Writes(l[o], j);
    } else {
      forall i | 0 <= i < t
        ensures !Writes(l[i], j)
      {
        assert l[i] == BlockAt(n, t, i);
      }
    }
  }

  /** A result vector of `n` default (empty) results, as `simus{sampleCount}` creates it. */
  function Unset(n: nat): (r: seq<Simulation>)
    ensures |r| == n && forall j :: 0 <= j < n ==> r[j] == []
  {
    seq(n, _ => [])
  }

  /** The result vector after the run as written: every slot but the last simulated, the last as it was. */
  function AsWrittenResults(buf: seq<Simulation>, bv: seq<Sample>, cfg: SimConfig): (r: seq<Simulation>)
    requires |buf| == |bv|
    ensures |r| == |bv|
  {
    seq(|bv|, j requires 0 <= j < |bv| => if j < |bv| - 1 then Cell(cfg, bv[j], j) else buf[j])
  }

  /**
   * The run as written (well-defined domain): every slot but the last holds
   * the simulation of the sample with the same index; the last slot keeps
   * the value it had before the threads ran.
   */
  lemma {:induction false} AsWrittenRun(n: nat, t: nat, bv: seq<Sample>, buf: seq<Simulation>, cfg: SimConfig)
    requires 1 <= t < UintRange && n < SizeRange && WellDefined(n, t)
    requires |bv| == n && |buf| == n
    ensures AllFit(Layout(n, t), n, n)
    ensures ApplyAll(buf, bv, Layout(n, t), cfg) == AsWrittenResults(buf, bv, cfg)
  {
    var l := Layout(n, t);
    LayoutShape(n, t);
    LayoutCoverage(n, t);
    AlignedDisjoint(l);
    var r := ApplyAll(buf, bv, l, cfg);
    forall j | 0 <= j < n
      ensures r[j] == if j < n - 1 then Cell(cfg, bv[j], j) else buf[j]
    {
      AsWrittenSlot(n, t, bv, buf, cfg, j);
    }
  }

  /** The run over the corrected layout: for every N and T >= 1, every slot holds its sample's simulation. */
  lemma {:induction false} CorrectedRun(n: nat, t: nat, bv: seq<Sample>, buf: seq<Simulation>, cfg: SimConfig)
    requires 1 <= t && |bv| == n && |buf| == n
    ensures AllFit(CorrectedLayout(n, t), n, n)
    ensures ApplyAll(buf, bv, CorrectedLayout(n, t), cfg) == seq(n, j requires 0 <= j < n => Cell(cfg, bv[j], j))
  {
    var c := CorrectedLayout(n, t);
    CorrectedLayoutCovers(n, t);
    AlignedDisjoint(c);
    var r := ApplyAll(buf, bv, c, cfg);
    forall j | 0 <= j < n
      ensures r[j] == Cell(cfg, bv[j], j)
    {
      ApplyAllAt(buf, bv, c, cfg, j);
      assert Writes(c[CorrectedOwner(n, t, j)], j);
    }
  }
}
