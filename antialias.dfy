/** antialias() and antialias_construct_topology_hash(): the topology-hash
    choice and the forward/backward pair with its work buffer and gradient boost. */
module Antialias {
  import opened Wrappers
  import opened Plugin

  /** The arguments handed to the autograd function, in its order:
      (color, rast, pos, tri, topology_hash, pos_gradient_boost). */
  datatype AntialiasCall = AntialiasCall(color: Tensor, rast: Tensor, pos: Tensor, tri: Tensor,
                                         topologyHash: Tensor, posGradientBoost: real)

  /** What forward keeps for backward, including the work buffer it produced. */
  datatype AntialiasSaved = AntialiasSaved(color: Tensor, rast: Tensor, pos: Tensor, tri: Tensor,
                                           posGradientBoost: real, workBuffer: Tensor)

  /** Default of `pos_gradient_boost`. */
  const DefaultBoost: real := 1.0

  /** `antialias_construct_topology_hash(tri)`: a topology hash handle for `tri`. */
  function ConstructTopologyHash(tri: Tensor): (h: Tensor)
    ensures h.Output? && h.call.AntialiasConstructTopologyHash? && h.call.tri == tri
  {
    Out(AntialiasConstructTopologyHash(tri), 0)
  }

  /** `antialias(color, rast, pos, tri, topology_hash, pos_gradient_boost)` up to
      the call of the autograd function: a missing hash is built from `tri`. */
  function AntialiasDispatch(color: Tensor, rast: Tensor, pos: Tensor, tri: Tensor,
                             topologyHash: Option<Tensor>, posGradientBoost: real): (r: AntialiasCall)
    ensures topologyHash.Some? ==> r.topologyHash == topologyHash.value
    ensures topologyHash.None? ==> r.topologyHash == ConstructTopologyHash(tri)
    ensures r.color == color && r.rast == rast && r.pos == pos && r.tri == tri
    ensures r.posGradientBoost == posGradientBoost
  {
    var hash := if topologyHash.Some? then topologyHash.value else ConstructTopologyHash(tri);
    AntialiasCall(color, rast, pos, tri, hash, posGradientBoost)
  }

  /** Forward: one native antialiasing pass; its second result is the work buffer,
      which is saved with the inputs and the boost. */
  function AntialiasForward(c: AntialiasCall): (r: (Tensor, AntialiasSaved))
    ensures var k := AntialiasFwd(c.color, c.rast, c.pos, c.tri, c.topologyHash);
            r.0 == Out(k, 0)
            && r.1 == AntialiasSaved(c.color, c.rast, c.pos, c.tri, c.posGradientBoost, Out(k, 1))
  {
    var k := AntialiasFwd(c.color, c.rast, c.pos, c.tri, c.topologyHash);
    (Out(k, 0), AntialiasSaved(c.color, c.rast, c.pos, c.tri, c.posGradientBoost, Out(k, 1)))
  }

  /** Backward: gradients for color and pos only; the pos gradient is scaled by the
      boost when the boost is not 1.0, the color gradient never is. */
  function AntialiasBackward(s: AntialiasSaved, dy: Tensor): (g: Grads)
    ensures |g| == 6 && Present(g, {0, 2})
    ensures var k := AntialiasGrad(s.color, s.rast, s.pos, s.tri, dy, s.workBuffer);
            && g[0] == Some(Out(k, 0))
            && (s.posGradientBoost != 1.0 ==> g[2] == Some(Scaled(Out(k, 1), s.posGradientBoost)))
            && (s.posGradientBoost == 1.0 ==> g[2] == Some(Out(k, 1)))
  {
    var k := AntialiasGrad(s.color, s.rast, s.pos, s.tri, dy, s.workBuffer);
    var gColor, gPos := Out(k, 0), Out(k, 1);
    var gPos' := if s.posGradientBoost != 1.0 then Scaled(gPos, s.posGradientBoost) else gPos;
    [Some(gColor), None, Some(gPos'), None, None, None]
  }

  /** A hash built beforehand from the same triangles leads to exactly the call the
      wrapper would make after building the hash itself. */
  lemma PrebuiltHashMatchesInternal(color: Tensor, rast: Tensor, pos: Tensor, tri: Tensor, boost: real)
    ensures AntialiasDispatch(color, rast, pos, tri, Some(ConstructTopologyHash(tri)), boost)
            == AntialiasDispatch(color, rast, pos, tri, None, boost)
  {
  }

  /** From the wrapper to the backward pass: backward uses the work buffer of the
      matching forward and the tensors forward was given; with the default boost
      the pos gradient is passed on unscaled. */
  lemma AntialiasRoundTrip(color: Tensor, rast: Tensor, pos: Tensor, tri: Tensor,
                           topologyHash: Option<Tensor>, dy: Tensor)
    ensures var c := AntialiasDispatch(color, rast, pos, tri, topologyHash, DefaultBoost);
            var (out, s) := AntialiasForward(c);
            var g := AntialiasBackward(s, dy);
            var k := AntialiasGrad(color, rast, pos, tri, dy, Out(out.call, 1));
            && out.call == AntialiasFwd(color, rast, pos, tri, c.topologyHash)
            && g == [Some(Out(k, 0)), None, Some(Out(k, 1)), None, None, None]
  {
  }
}
