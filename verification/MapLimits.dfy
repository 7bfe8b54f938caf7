/**
Where the depth map stops being one-to-one: the depth sides of a mip chain, whose map never reads
the level's origin. An upload, a readback or a clear reaches such a side; copies and blits refuse
multi-level depth images before they ask for one.
*/
module MapLimits {
  import opened Words
  import opened TileMaps
  import opened TileGrid
  import opened CopySides
  import opened Images
  import opened MipChains

  // ------------------------------------------------------------------ depth mip chains

  lemma ChainDepthSide(chain: Chain, level: nat, layer: nat, address: nat)
    requires level < |chain.bases|
    ensures var side := ChainSide(chain, level, layer, address, true);
            DepthSide(side) && ValidSide(side)
  {
  }

  function DepthChainAddress(chain: Chain, address: nat, t: ChainTexel): nat
    requires InChain(chain, t)
  {
    AddressOf(ChainSide(chain, t.level, t.layer, address, true), t.x, t.y, 0)
  }

  /** Every two texels of a depth image of this shape have bytes of their own. */
  ghost predicate DepthTexelsApart(chain: Chain, address: nat) {
    forall t, t' | InChain(chain, t) && InChain(chain, t') && t != t' ::
      Disjoint(DepthChainAddress(chain, address, t), 4, DepthChainAddress(chain, address, t'), 4)
  }

  /** The first texel of any level lies at the start of the level's tile. */
  lemma FirstDepthTexel(chain: Chain, level: nat, layer: nat, address: nat)
    requires level < |chain.bases|
    ensures InChain(chain, ChainTexel(layer, level, 0, 0))
    ensures DepthChainAddress(chain, address, ChainTexel(layer, level, 0, 0)) ==
            ChainSide(chain, level, layer, address, true).address
  {
    assert WordOf(0) == 0 by { OriginIsBase(0); }
    Depth4Origin();
  }

  lemma Depth4Origin()
    ensures Value(DEPTH_4.place(0, 0)) == 0
  {
    Depth4Unrolled(0, 0);
  }

  /** The last two levels of a chain of several are packed into the first tile. */
  lemma TwoTailLevels(chain: Chain)
    requires chain in CHAINS && chain.levels > 1
    ensures |chain.bases| == chain.levels
    ensures chain.bases[chain.levels - 2] < TILE_BYTES && chain.bases[chain.levels - 1] < TILE_BYTES
  {
  }

  /** The texels that meet: the first of each of the two smallest levels. */
  lemma DepthTailsMeet(chain: Chain, address: nat)
    requires chain in CHAINS && chain.levels > 1
    ensures |chain.bases| == chain.levels
    ensures var t := ChainTexel(0, chain.levels - 2, 0, 0);
            var t' := ChainTexel(0, chain.levels - 1, 0, 0);
            InChain(chain, t) && InChain(chain, t') &&
            DepthChainAddress(chain, address, t) == DepthChainAddress(chain, address, t')
  {
    TablePacked(chain);
    TwoTailLevels(chain);
    InFirstTileMeet(chain, address, chain.levels - 2, chain.levels - 1);
  }

  lemma InFirstTileMeet(chain: Chain, address: nat, i: nat, j: nat)
    requires Packed(chain) && i < |chain.bases| && j < |chain.bases|
    requires chain.bases[i] < TILE_BYTES && chain.bases[j] < TILE_BYTES
    ensures InChain(chain, ChainTexel(0, i, 0, 0)) && InChain(chain, ChainTexel(0, j, 0, 0))
    ensures DepthChainAddress(chain, address, ChainTexel(0, i, 0, 0)) ==
            DepthChainAddress(chain, address, ChainTexel(0, j, 0, 0))
  {
    FirstInFirstTile(chain, address, i);
    FirstInFirstTile(chain, address, j);
  }

  lemma FirstInFirstTile(chain: Chain, address: nat, i: nat)
    requires Packed(chain) && i < |chain.bases| && chain.bases[i] < TILE_BYTES
    ensures InChain(chain, ChainTexel(0, i, 0, 0))
    ensures DepthChainAddress(chain, address, ChainTexel(0, i, 0, 0)) == SliceStart(chain, 0, address)
  {
    FirstDepthTexel(chain, i, 0, address);
    ChainSideStart(chain, i, 0, address, true);
  }

  lemma SingleDepthInSlice(chain: Chain, address: nat, t: ChainTexel)
    requires chain in CHAINS && chain.levels == 1 && InChain(chain, t)
    ensures var start := SliceStart(chain, t.layer, address);
            Inside(DepthChainAddress(chain, address, t), 4, start, start + chain.bytes)
  {
    TablePacked(chain);
    SingleLevelBase(chain);
    SingleLevelSide(chain, t.layer, address, true);
    SingleGrid(chain);
    ChainDepthSide(chain, 0, t.layer, address);
    SideTexelInside(ChainSide(chain, 0, t.layer, address, true), chain.height, t.x, t.y, 0);
  }

  lemma SingleDepthApart(chain: Chain, address: nat, t: ChainTexel, t': ChainTexel)
    requires chain in CHAINS && chain.levels == 1 && InChain(chain, t) && InChain(chain, t') && t != t'
    ensures Disjoint(DepthChainAddress(chain, address, t), 4, DepthChainAddress(chain, address, t'), 4)
  {
    TablePacked(chain);
    if t.layer == t'.layer {
      ChainDepthSide(chain, 0, t.layer, address);
      SideTexelsApart(ChainSide(chain, 0, t.layer, address, true), t.x, t.y, 0, t'.x, t'.y, 0);
    } else {
      SingleDepthInSlice(chain, address, t);
      SingleDepthInSlice(chain, address, t');
      if t.layer < t'.layer {
        NextSlice(chain.bytes, t.layer, t'.layer);
      } else {
        NextSlice(chain.bytes, t'.layer, t.layer);
      }
    }
  }

  /** A depth image of a measured shape keeps its texels apart exactly when it has one level. */
  lemma DepthChainExact(chain: Chain, address: nat)
    requires chain in CHAINS
    ensures DepthTexelsApart(chain, address) <==> chain.levels == 1
  {
    if chain.levels == 1 {
      forall t, t' | InChain(chain, t) && InChain(chain, t') && t != t'
        ensures Disjoint(DepthChainAddress(chain, address, t), 4, DepthChainAddress(chain, address, t'), 4)
      {
        SingleDepthApart(chain, address, t, t');
      }
    } else {
      ManyLevels(chain);
      DepthTailsMeet(chain, address);
    }
  }

  lemma ManyLevels(chain: Chain)
    requires chain in CHAINS && chain.levels != 1
    ensures chain.levels > 1
  {
  }
}
