/** interpolate(): normalisation of the attribute-derivative selection, the
    choice between the two autograd functions, and their forward/backward pairs. */
module Interpolate {
  import opened Wrappers
  import opened Plugin

  /** The `diff_attrs` argument: None, a string, or a (possibly nested) list of
      integers that numpy turns into an int32 array of the given rank. */
  datatype DiffAttrs = Unset | Text(s: string) | IndexArray(rank: nat, values: seq<int>)

  /** The arguments of the chosen autograd function. */
  datatype InterpolateCall =
    | WithDerivatives(attr: Tensor, rast: Tensor, tri: Tensor, rastDb: Tensor,
                      diffAttrsAll: int, diffAttrsList: seq<int>)
    | WithoutDerivatives(attr: Tensor, rast: Tensor, tri: Tensor)

  /** Saved state of the two autograd functions. */
  datatype InterpolateSaved =
    | DaSaved(attr: Tensor, rast: Tensor, tri: Tensor, rastDb: Tensor,
              diffAttrsAll: int, diffAttrsList: seq<int>)
    | PlainSaved(attr: Tensor, rast: Tensor, tri: Tensor)

  /** The pair (diff_attrs_all, diff_attrs_list) and whether any derivative is
      requested (the truth value of the sanitised `diff_attrs`). */
  datatype Selection = Selection(all: int, list: seq<int>, requested: bool)

  /** Sanitises `diff_attrs`: None means no attribute, 'all' every attribute,
      and anything else must become a one-dimensional index array. */
  function SelectDiffAttrs(d: DiffAttrs): (r: Result<Selection>)
    ensures d.Unset? ==> r == Success(Selection(0, [], false))
    ensures d == Text("all") ==> r == Success(Selection(1, [], true))
    ensures d.Text? && d.s != "all" ==> r.Failure?
    ensures d.IndexArray? && d.rank != 1 ==> r == Failure(AssertionError(DiffAttrsOneDimensional))
    ensures d.IndexArray? && d.rank == 1 ==> r == Success(Selection(0, d.values, d.values != []))
    ensures r.Success? ==> (r.value.all == 1 || r.value.all == 0) && (r.value.all == 1 ==> r.value.list == [])
  {
    match d
    case Unset => Success(Selection(0, [], false))
    case Text(s) =>
      if s == "all" then Success(Selection(1, [], true))
      else Failure(ConversionError("diff_attrs"))
    case IndexArray(rank, values) =>
      if rank != 1 then Failure(AssertionError(DiffAttrsOneDimensional))
      else Success(Selection(0, values, values != []))
  }

  /** `interpolate(attr, rast, tri, rast_db, diff_attrs)` up to the call of the autograd function. */
  function InterpolateDispatch(attr: Tensor, rast: Tensor, tri: Tensor, rastDb: Option<Tensor>,
                               diffAttrs: DiffAttrs): (r: Result<InterpolateCall>)
    ensures SelectDiffAttrs(diffAttrs).Failure? ==> r == Failure(SelectDiffAttrs(diffAttrs).error)
    ensures SelectDiffAttrs(diffAttrs).Success? ==>
              var sel := SelectDiffAttrs(diffAttrs).value;
              && (r.Failure? <==> sel.requested && rastDb.None?)
              && (r.Failure? ==> r.error == AssertionError(RastDbIsTensor))
              && (r.Success? ==> (r.value.WithDerivatives? <==> sel.requested))
              && (r.Success? && r.value.WithDerivatives? ==>
                    Some(r.value.rastDb) == rastDb
                    && r.value.diffAttrsAll == sel.all && r.value.diffAttrsList == sel.list)
    ensures r.Success? ==> r.value.attr == attr && r.value.rast == rast && r.value.tri == tri
  {
    match SelectDiffAttrs(diffAttrs)
    case Failure(e) => Failure(e)
    case Success(sel) =>
      if sel.requested && rastDb.None? then Failure(AssertionError(RastDbIsTensor))
      else if sel.requested then Success(WithDerivatives(attr, rast, tri, rastDb.value, sel.all, sel.list))
      else Success(WithoutDerivatives(attr, rast, tri))
  }

  /** Forward with attribute derivatives: saves attr, rast, tri, rast_db and the selection. */
  function InterpolateDaForward(attr: Tensor, rast: Tensor, tri: Tensor, rastDb: Tensor,
                                diffAttrsAll: int, diffAttrsList: seq<int>): (r: (Tensor, Tensor, InterpolateSaved))
    ensures var k := InterpolateFwdDa(attr, rast, tri, rastDb, diffAttrsAll, diffAttrsList);
            r.0 == Out(k, 0) && r.1 == Out(k, 1)
    ensures r.2 == DaSaved(attr, rast, tri, rastDb, diffAttrsAll, diffAttrsList)
  {
    var k := InterpolateFwdDa(attr, rast, tri, rastDb, diffAttrsAll, diffAttrsList);
    (Out(k, 0), Out(k, 1), DaSaved(attr, rast, tri, rastDb, diffAttrsAll, diffAttrsList))
  }

  /** Backward with attribute derivatives: gradients for attr, rast and rast_db only. */
  function InterpolateDaBackward(s: InterpolateSaved, dy: Tensor, dda: Tensor): (g: Grads)
    requires s.DaSaved?
    ensures |g| == 6 && Present(g, {0, 1, 3})
    ensures var k := InterpolateGradDa(s.attr, s.rast, s.tri, dy, s.rastDb, dda, s.diffAttrsAll, s.diffAttrsList);
            g[0] == Some(Out(k, 0)) && g[1] == Some(Out(k, 1)) && g[3] == Some(Out(k, 2))
  {
    var k := InterpolateGradDa(s.attr, s.rast, s.tri, dy, s.rastDb, dda, s.diffAttrsAll, s.diffAttrsList);
    [Some(Out(k, 0)), Some(Out(k, 1)), None, Some(Out(k, 2)), None, None]
  }

  /** Forward without attribute derivatives: saves attr, rast and tri. */
  function InterpolatePlainForward(attr: Tensor, rast: Tensor, tri: Tensor): (r: (Tensor, Tensor, InterpolateSaved))
    ensures var k := InterpolateFwd(attr, rast, tri);
            r.0 == Out(k, 0) && r.1 == Out(k, 1)
    ensures r.2 == PlainSaved(attr, rast, tri)
  {
    var k := InterpolateFwd(attr, rast, tri);
    (Out(k, 0), Out(k, 1), PlainSaved(attr, rast, tri))
  }

  /** Backward without attribute derivatives: gradients for attr and rast; the
      incoming gradient of the (empty) derivative output is ignored. */
  function InterpolatePlainBackward(s: InterpolateSaved, dy: Tensor, dda: Tensor): (g: Grads)
    requires s.PlainSaved?
    ensures |g| == 3 && Present(g, {0, 1})
    ensures var k := InterpolateGrad(s.attr, s.rast, s.tri, dy);
            g[0] == Some(Out(k, 0)) && g[1] == Some(Out(k, 1))
  {
    var k := InterpolateGrad(s.attr, s.rast, s.tri, dy);
    [Some(Out(k, 0)), Some(Out(k, 1)), None]
  }

  /** `.apply` of the chosen autograd function. */
  function InterpolateForward(c: InterpolateCall): (Tensor, Tensor, InterpolateSaved)
  {
    match c
    case WithDerivatives(attr, rast, tri, rastDb, all, list) => InterpolateDaForward(attr, rast, tri, rastDb, all, list)
    case WithoutDerivatives(attr, rast, tri) => InterpolatePlainForward(attr, rast, tri)
  }

  /** The backward of whichever autograd function ran forward. */
  function InterpolateBackward(s: InterpolateSaved, dy: Tensor, dda: Tensor): Grads
  {
    if s.DaSaved? then InterpolateDaBackward(s, dy, dda) else InterpolatePlainBackward(s, dy, dda)
  }

  /** The inputs of `interpolate` that can receive a gradient. */
  datatype InterpolateInput = Attr | Rast | Tri | RastDb

  /** Independent statement of which inputs get gradients: attr and rast
      always, rast_db exactly when derivatives were computed. */
  function DifferentiableInputs(derivatives: bool): set<InterpolateInput>
  {
    {Attr, Rast} + (if derivatives then {RastDb} else {})
  }

  /** Reads the gradient of an `interpolate` input out of a backward tuple. */
  function GradientOf(s: InterpolateSaved, g: Grads, x: InterpolateInput): Option<Tensor>
    requires |g| == (if s.DaSaved? then 6 else 3)
  {
    match x
    case Attr => g[0]
    case Rast => g[1]
    case Tri => g[2]
    case RastDb => if s.DaSaved? then g[3] else None
  }

  /** From the wrapper to the backward pass: the inputs that receive a gradient
      are exactly attr and rast, plus rast_db iff some attribute derivative was
      requested; and backward works on the tensors forward was given. */
  lemma InterpolateGradientInputs(attr: Tensor, rast: Tensor, tri: Tensor,
                                  rastDb: Option<Tensor>, diffAttrs: DiffAttrs,
                                  dy: Tensor, dda: Tensor)
    requires InterpolateDispatch(attr, rast, tri, rastDb, diffAttrs).Success?
    ensures var c := InterpolateDispatch(attr, rast, tri, rastDb, diffAttrs).value;
            var s := InterpolateForward(c).2;
            var g := InterpolateBackward(s, dy, dda);
            && |g| == (if s.DaSaved? then 6 else 3)
            && s.attr == attr && s.rast == rast && s.tri == tri
            && forall x :: GradientOf(s, g, x).Some? <==> x in DifferentiableInputs(SelectDiffAttrs(diffAttrs).value.requested)
  {
  }

  /** Asking for derivatives of every attribute with 'all' selects the derivative
      variant with an empty explicit list; an empty list selects the plain variant. */
  lemma AllAndEmptySelections(attr: Tensor, rast: Tensor, tri: Tensor, rastDb: Tensor)
    ensures InterpolateDispatch(attr, rast, tri, Some(rastDb), Text("all"))
            == Success(WithDerivatives(attr, rast, tri, rastDb, 1, []))
    ensures InterpolateDispatch(attr, rast, tri, None, IndexArray(1, []))
            == Success(WithoutDerivatives(attr, rast, tri))
    ensures InterpolateDispatch(attr, rast, tri, None, Unset)
            == Success(WithoutDerivatives(attr, rast, tri))
  {
  }
}
