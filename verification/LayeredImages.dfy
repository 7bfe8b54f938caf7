/**
Array layers of tiled images: driver/ps5vk_image.c's slice rule (ps5vk_image_layer_bytes) and the side
it gives a layer of a single-level image. Every layer is a single-layer image of its own, and no two
layers share a byte, although a slice need not be a whole number of tiles.
*/
module LayeredImages {
  import opened Options
  import opened Arithmetic
  import opened TileGrid
  import opened Words
  import opened Images
  import opened CopySides
  import opened MipChains

  /** A single-level tiled image of any number of layers, without a stencil plane. */
  predicate Layered(info: ImageInfo) {
    && ValidInfo(info) && Tiled(info) && MappedFormat(info)
    && !info.stencil && info.levels == 1 && info.layers >= 1
  }

  /** One of its layers, as an image. */
  function OneLayer(info: ImageInfo): ImageInfo {
    info.(layers := 1)
  }

  lemma OneLayerSingle(info: ImageInfo, aspect: Aspect)
    requires Layered(info)
    ensures SingleLevel(OneLayer(info)) && PlaneOfAspect(OneLayer(info), aspect) == PlaneOfAspect(info, aspect)
  {
    if info.layers == 1 {
      assert OneLayer(info) == info;
    }
  }

  lemma {:induction false} SameChain(info: ImageInfo, i: nat)
    requires i <= |CHAINS|
    ensures ChainFrom(OneLayer(info), i) == ChainFrom(info, i)
    decreases |CHAINS| - i
  {
    if i < |CHAINS| {
      SameChain(info, i + 1);
    }
  }

  lemma SameLayerBytes(info: ImageInfo)
    requires ValidInfo(info)
    ensures TiledLayerBytes(OneLayer(info)) == TiledLayerBytes(info)
  {
    SameChain(info, 0);
  }

  /** A slice holds a layer's tiles, and the image's size holds the slices; outside the chain table a
      slice is as large as that allows. */
  lemma SlicesFit(info: ImageInfo)
    requires Layered(info)
    ensures TiledLayerBytes(info) <= LayerBytes(info)
    ensures Product(LayerBytes(info), info.layers) <= StorageOf(info).size
    ensures ChainOf(info).None? ==> StorageOf(info).size < Product(LayerBytes(info) + 1, info.layers)
  {
    AlignUpBounds(Product(TiledLayerBytes(info), info.layers), TILED_ALIGNMENT);
    if ChainOf(info).None? {
      ShareFits(TiledLayerBytes(info), info.layers, StorageOf(info).size);
    }
  }

  lemma {:induction false} ShareFits(bytes: nat, layers: nat, size: nat)
    requires layers > 0 && Product(bytes, layers) <= size
    ensures var share := Quotient(size, layers);
            bytes <= share && Product(share, layers) <= size < Product(share + 1, layers)
  {
    QuotientAndRemainder(size, layers);
    if bytes > Quotient(size, layers) {
      ProductMonotone(Quotient(size, layers) + 1, bytes, layers);
    }
  }

  lemma LayerHasTiles(info: ImageInfo)
    requires Layered(info)
    ensures TiledLayerBytes(info) > 0
  {
    OneLayerSingle(info, ColourAspect);
    SameLayerBytes(info);
    LayerIsGrid(OneLayer(info), TileWide(info), TileHigh(info));
    BlockInGrid(0, 0, info.width, info.height, TileWide(info), TileHigh(info));
  }

  /** The base of a layer's only level is its slice's start. A stencil image outside the table has no
      slices, and so no base past the first layer. */
  lemma LayerBase(info: ImageInfo, layer: nat)
    requires ValidInfo(info) && Tiled(info) && info.levels == 1
    ensures Layered(info) ==> LayerLevelBase(info, 0, layer) == Some(Product(LayerBytes(info), layer))
    ensures info.stencil && ChainOf(info).None? ==>
              LayerLevelBase(info, 0, layer) == if layer == 0 then Some(0) else None
  {
    if Layered(info) {
      LayerHasTiles(info);
      SlicesFit(info);
    }
  }

  /** A copy of a layer works on that layer's own image, its slices after the first; only the
      two-byte depth image has no copies. */
  lemma LayerSide(info: ImageInfo, aspect: Aspect, layer: nat, address: nat)
    requires Layered(info) && PlaneOfAspect(info, aspect).Some? && layer < info.layers
    ensures CopySide(info, aspect, 0, layer, address) ==
            if info.depth && info.texelBytes == 2 then None
            else Some(PlaneSide(OneLayer(info), PlaneOfAspect(info, aspect).value,
                                address + Product(LayerBytes(info), layer)))
  {
    LayerHasTiles(info);
    SlicesFit(info);
    OneLayerSingle(info, aspect);
    MappedPlane(OneLayer(info), aspect);
    SliceSide(info, PlaneOfAspect(info, aspect).value, layer, address);
  }

  lemma SliceSide(info: ImageInfo, plane: Plane, layer: nat, address: nat)
    requires ValidInfo(info) && info.levels == 1 && layer < info.layers && LayerBytes(info) > 0
    requires ElementSize(plane.elementBytes) && (plane.depthMap ==> plane.elementBytes in {1, 2, 4})
    requires info.samples == 1 || (info.samples == 4 && plane.elementBytes == 4)
    ensures TiledSide(info, plane, 0, layer, address) ==
            if plane.depthMap && plane.elementBytes == 2 then None
            else Some(PlaneSide(OneLayer(info), plane, address + Product(LayerBytes(info), layer)))
  {
  }

  lemma SlicesInTurn(bytes: nat, layer: nat, layer': nat)
    requires layer < layer'
    ensures Product(bytes, layer) + bytes <= Product(bytes, layer')
  {
    ProductMonotone(layer + 1, layer', bytes);
  }

  /** Where a layer's texel is. */
  function LayerTexelAddress(info: ImageInfo, address: nat, layer: nat, t: Texel): nat
    requires Layered(info) && HasTexel(OneLayer(info), t)
  {
    OneLayerSingle(info, t.aspect);
    TexelAddress(OneLayer(info), address + Product(LayerBytes(info), layer), t)
  }

  /** Every texel of a layer lies in the layer's slice. */
  lemma TexelInSlice(info: ImageInfo, address: nat, layer: nat, t: Texel)
    requires Layered(info) && HasTexel(OneLayer(info), t)
    ensures var slice := address + Product(LayerBytes(info), layer);
            Inside(LayerTexelAddress(info, address, layer, t), TexelSize(OneLayer(info), t),
                   slice, slice + LayerBytes(info))
  {
    OneLayerSingle(info, t.aspect);
    SameLayerBytes(info);
    SlicesFit(info);
    TexelInPlane(OneLayer(info), address + Product(LayerBytes(info), layer), t);
  }

  /** No two texels or samples of any two layers share a byte. */
  lemma LayeredTexelsApart(info: ImageInfo, address: nat, layer: nat, t: Texel, layer': nat, t': Texel)
    requires Layered(info) && HasTexel(OneLayer(info), t) && HasTexel(OneLayer(info), t')
    requires layer != layer' || t != t'
    ensures Disjoint(LayerTexelAddress(info, address, layer, t), TexelSize(OneLayer(info), t),
                     LayerTexelAddress(info, address, layer', t'), TexelSize(OneLayer(info), t'))
  {
    if layer == layer' {
      OneLayerSingle(info, t.aspect);
      ImageTexelsApart(OneLayer(info), address + Product(LayerBytes(info), layer), t, t');
    } else {
      TexelInSlice(info, address, layer, t);
      TexelInSlice(info, address, layer', t');
      SlicesApart(LayerTexelAddress(info, address, layer, t), TexelSize(OneLayer(info), t), layer,
                  LayerTexelAddress(info, address, layer', t'), TexelSize(OneLayer(info), t'), layer',
                  address, LayerBytes(info));
    }
  }

  lemma SlicesApart(at: nat, size: nat, layer: nat, at': nat, size': nat, layer': nat, address: nat, bytes: nat)
    requires Inside(at, size, address + Product(bytes, layer), address + Product(bytes, layer) + bytes)
    requires Inside(at', size', address + Product(bytes, layer'), address + Product(bytes, layer') + bytes)
    requires layer != layer'
    ensures Disjoint(at, size, at', size')
  {
    if layer < layer' {
      SlicesInTurn(bytes, layer, layer');
    } else {
      SlicesInTurn(bytes, layer', layer);
    }
  }

  /** And all lie in the size the driver computes. */
  lemma LayeredTexelInside(info: ImageInfo, address: nat, layer: nat, t: Texel)
    requires Layered(info) && HasTexel(OneLayer(info), t) && layer < info.layers
    ensures Inside(LayerTexelAddress(info, address, layer, t), TexelSize(OneLayer(info), t),
                   address, address + StorageOf(info).size)
  {
    TexelInSlice(info, address, layer, t);
    SlicesFit(info);
    SlicesInTurn(LayerBytes(info), layer, info.layers);
  }
}
