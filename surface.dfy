/**
  Surface records: the instance data uploaded per surface, the two kinds of
  backing image a surface can have, and the per-surface bookkeeping record
  the surface pool keeps.  Positions and sizes are the integers the caller
  passes in; the source converts them to `f32` for the GPU.
*/
module Surfaces {
  import opened Engine

  /** `[i32; 3]`: a surface position; z orders surfaces in depth. */
  datatype Position = Position(x: int, y: int, z: int)

  /** `[u32; 2]`: a width and a height. */
  datatype Size = Size(width: nat, height: nat)

  /** `Surface`: the per-instance record in the vertex buffer. */
  datatype Surface = Surface(position: Position, size: Size, imageIndex: nat)

  /** An externally shared GPU buffer (a DMA buffer with one plane). */
  datatype DmabufInfo = DmabufInfo(size: Size, modifier: nat, fd: int, planeOffset: nat, planeStride: nat)

  /** A host-memory bitmap. */
  datatype HostAllocationInfo = HostAllocationInfo(size: Size, format: TextureFormat, stride: nat)

  /** `SurfaceSource`: a backing image together with its pixels, when they live in host memory. */
  datatype SurfaceSource =
    | Dmabuf(dmabuf: DmabufInfo)
    | HostAllocation(host: HostAllocationInfo, data: seq<byte>)

  /** `SurfaceSourceInfo`: the description of a backing image, without pixels. */
  datatype SurfaceSourceInfo =
    | DmabufSource(dmabuf: DmabufInfo)
    | HostAllocationSource(host: HostAllocationInfo)

  /**
    `From<&SurfaceSource> for SurfaceSourceInfo`; the by-value conversion
    delegates to it, and Dafny values have no by-reference form, so both are
    this one function.  It keeps the variant and its description.
  */
  function SourceInfo(source: SurfaceSource): (r: SurfaceSourceInfo)
    ensures source.Dmabuf? <==> r.DmabufSource?
    ensures source.Dmabuf? ==> r.dmabuf == source.dmabuf
    ensures source.HostAllocation? ==> r.host == source.host
  {
    match source
    case Dmabuf(info) => DmabufSource(info)
    case HostAllocation(info, _) => HostAllocationSource(info)
  }

  /** The conversion drops the pixel data: sources that differ only in their pixels describe the same image. */
  lemma SourceInfoForgetsPixels(info: HostAllocationInfo, a: seq<byte>, b: seq<byte>)
    ensures SourceInfo(HostAllocation(info, a)) == SourceInfo(HostAllocation(info, b))
  {
  }

  /** `From<DmabufInfo>`: agrees with converting the corresponding source. */
  function FromDmabufInfo(info: DmabufInfo): (r: SurfaceSourceInfo)
    ensures r == SourceInfo(Dmabuf(info))
  {
    DmabufSource(info)
  }

  /** `From<HostAllocationInfo>`: agrees with converting a host source with any pixels. */
  function FromHostAllocationInfo(info: HostAllocationInfo): (r: SurfaceSourceInfo)
    ensures forall data :: r == SourceInfo(HostAllocation(info, data))
  {
    HostAllocationSource(info)
  }

  /** `SurfaceInfo`: what the pool remembers about a live surface. */
  datatype SurfaceInfo = SurfaceInfo(
    textureId: TextureId,
    textureViewId: TextureViewId,
    info: SurfaceSourceInfo,
    position: Position,
    size: Size)

  /** `SurfaceInfo::new`: the handles and description are stored as given. */
  function NewSurfaceInfo(texture: TextureId, view: TextureViewId, info: SurfaceSourceInfo,
                          position: Position, size: Size): (r: SurfaceInfo)
    ensures r.textureId == texture && r.textureViewId == view && r.info == info
    ensures r.position == position && r.size == size
  {
    SurfaceInfo(texture, view, info, position, size)
  }

  /** `generate_data`: the instance record of a surface shown with image `imageIndex`. */
  function GenerateData(s: SurfaceInfo, imageIndex: nat): (r: Surface)
    ensures r.position == s.position && r.size == s.size && r.imageIndex == imageIndex
  {
    Surface(s.position, s.size, imageIndex)
  }
}
