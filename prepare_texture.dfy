/**
  The descriptors the surface pool builds for a surface's backing image: the
  texture descriptor and initial upload chosen by the kind of source, the
  texture view, and the texture write.
*/
module TexturePrep {
  import opened Wrappers
  import opened Engine
  import opened Surfaces

  /** A `u32` product as a release build computes it: wrapped modulo 2^32. */
  function U32Mul(a: nat, b: nat): (r: nat)
    ensures r < U32_MODULUS
    ensures a * b < U32_MODULUS ==> r == a * b
  {
    (a * b) % U32_MODULUS
  }

  /** Without overflow, the wrapped triple product is the true product. */
  lemma U32MulNoOverflow(a: nat, b: nat, c: nat)
    requires a * b * c < U32_MODULUS
    ensures U32Mul(U32Mul(a, b), c) == a * b * c
  {
    if c > 0 {
      assert a * b <= a * b * c by {
        assert a * b * c == (a * b) * c;
      }
    }
  }

  /** The size a source declares for its image. */
  function SourceSize(source: SurfaceSource): Size
  {
    match source
    case Dmabuf(info) => info.size
    case HostAllocation(info, _) => info.size
  }

  /** The size a source description declares. */
  function InfoSize(info: SurfaceSourceInfo): Size
  {
    match info
    case DmabufSource(d) => d.size
    case HostAllocationSource(h) => h.size
  }

  /** The single plane of an imported DMA buffer; its end is `plane_stride * width * height` in `u32`. */
  function DmabufPlane(info: DmabufInfo): PlaneLayout
  {
    PlaneLayout(info.planeOffset, U32Mul(U32Mul(info.planeStride, info.size.width), info.size.height),
                info.planeStride, 1, 1)
  }

  /**
    `prepare_texture`: the texture descriptor, the pixels to upload, and the
    layout of those pixels, for a surface's source.
  */
  function PrepareTexture(device: DeviceId, name: string, source: SurfaceSource)
    : (r: (TextureDescriptor, Option<seq<byte>>, ImageDataLayout))
    ensures r.0.device == device && r.0.name == name + " texture"
    ensures r.0.size == Extent3d(SourceSize(source).width, SourceSize(source).height, 1)
    ensures r.0.mipLevelCount == 1 && r.0.sampleCount == 1 && r.0.dimension == D2
    ensures r.0.usage == SAMPLED_COPY_DST
    ensures r.2.offset == 0 && r.2.rowsPerImage == NonZero(SourceSize(source).height)
    ensures source.HostAllocation? ==>
              && r.1 == Some(source.data)
              && r.0.source == Local
              && r.0.format == source.host.format
              && r.2.bytesPerRow == NonZero(source.host.stride)
    ensures source.Dmabuf? ==>
              && r.1 == None
              && r.0.format == Rgba8UnormSrgb
              && r.2.bytesPerRow == NonZero(source.dmabuf.planeStride)
              && r.0.source == DmaBuf(source.dmabuf.fd,
                                      Some(DrmFormatImageProperties(source.dmabuf.modifier, [DmabufPlane(source.dmabuf)])),
                                      0)
  {
    var size := SourceSize(source);
    var (layout, data, textureSource, format) :=
      match source
      case HostAllocation(info, pixels) =>
        (ImageDataLayout(0, NonZero(info.stride), NonZero(size.height)), Some(pixels), Local, info.format)
      case Dmabuf(info) =>
        var properties := DrmFormatImageProperties(info.modifier, [DmabufPlane(info)]);
        (ImageDataLayout(0, NonZero(info.planeStride), NonZero(size.height)), None,
         DmaBuf(info.fd, Some(properties), 0), Rgba8UnormSrgb);
    var descriptor := TextureDescriptor(device, name + " texture", textureSource, Extent3d(size.width, size.height, 1),
                                        1, 1, D2, format, SAMPLED_COPY_DST);
    (descriptor, data, layout)
  }

  /**
    The texture a pool registers for a source has the size its stored
    description declares, and pixels are uploaded exactly for host sources.
  */
  lemma PrepareTextureAgreesWithInfo(device: DeviceId, name: string, source: SurfaceSource)
    ensures var (descriptor, data, _) := PrepareTexture(device, name, source);
            && descriptor.size.width == InfoSize(SourceInfo(source)).width
            && descriptor.size.height == InfoSize(SourceInfo(source)).height
            && (data.Some? <==> SourceInfo(source).HostAllocationSource?)
  {
  }

  /** The slice of a DMA-buffer plane ends at `plane_stride * width * height` when that fits in `u32`. */
  lemma DmabufPlaneEnd(info: DmabufInfo)
    requires info.planeStride * info.size.width * info.size.height < U32_MODULUS
    ensures DmabufPlane(info).sliceStart == info.planeOffset
    ensures DmabufPlane(info).sliceEnd == info.planeStride * info.size.width * info.size.height
  {
    U32MulNoOverflow(info.planeStride, info.size.width, info.size.height);
  }

  /** `prepare_texture_view`: a 2-D view of the whole texture, with format and name as given. */
  function PrepareTextureView(device: DeviceId, name: string, texture: TextureId, format: TextureFormat)
    : (r: TextureViewDescriptor)
    ensures r.device == device && r.name == name && r.texture == texture && r.format == format
    ensures r.dimension == ViewD2 && r.aspect == All
    ensures r.baseMipLevel == 0 && r.mipLevelCount == None && r.baseArrayLayer == 0 && r.arrayLayerCount == None
  {
    TextureViewDescriptor(device, name, texture, format, ViewD2, All, 0, None, 0, None)
  }

  /** `prepare_texture_write`: an upload of `data` into mip level 0 of `texture`, from the origin. */
  function PrepareTextureWrite(texture: TextureId, data: seq<byte>, size: Extent3d, layout: ImageDataLayout)
    : (r: ResourceWrite)
    ensures r.TextureUpload? && r.write.texture == texture
    ensures r.write.mipLevel == 0 && r.write.origin == ORIGIN_ZERO
    ensures r.write.data == data && r.write.layout == layout && r.write.size == size
  {
    TextureUpload(TextureWrite(texture, 0, ORIGIN_ZERO, data, layout, size))
  }
}
