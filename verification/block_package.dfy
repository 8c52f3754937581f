/**
 * `BlockPackage::load_new`: the package record a block script fills in through
 * the setters of its package table.
 *
 * The script itself is not modelled: what `package_init` does is given as the
 * sequence of setter calls it makes. `BlockColor`'s variants are not part of this
 * model; a color is its discriminant, `colorCount` says how many there are and
 * `defaultColor` which one `Default` yields.
 */
module BlockPackages {
  import opened Wrappers
  import opened Globals

  const SHAPE_SIZE: nat := 5 * 5

  datatype BlockPackage = BlockPackage(
    info: PackageInfo,
    basePath: string,
    name: string,
    description: string,
    isProgram: bool,
    color: nat,
    shape: seq<bool>)

  /** The calls a block script can make on its package table. */
  datatype SetterCall =
    | DeclarePackageId(id: string)
    | SetName(name: string)
    | SetDescription(path: string)
    | SetColor(byte: Byte)
    | SetShape(bools: seq<bool>)
    | SetMutator

  /** `BlockPackage::default()` with `package_info` set. */
  function DefaultPackage(info: PackageInfo, basePath: string, defaultColor: nat): (r: BlockPackage)
    ensures r.info == info && r.basePath == basePath
    ensures r.name == "" && r.description == "" && !r.isProgram && r.color == defaultColor
    ensures |r.shape| == SHAPE_SIZE && forall k :: 0 <= k < SHAPE_SIZE ==> !r.shape[k]
  {
    BlockPackage(info, basePath, "", "", false, defaultColor, seq(SHAPE_SIZE, _ => false))
  }

  /** `set_shape`: the list is resized to 25 entries (cut, or padded with `false`) and copied. */
  function ShapeOf(bools: seq<bool>): (r: seq<bool>)
    ensures |r| == SHAPE_SIZE
    ensures forall k :: 0 <= k < SHAPE_SIZE ==> r[k] == (k < |bools| && bools[k])
  {
    seq(SHAPE_SIZE, k requires 0 <= k < SHAPE_SIZE => k < |bools| && bools[k])
  }

  /** `BlockColor::from_u8(byte).unwrap_or_default()`. */
  function ColorOf(byte: Byte, colorCount: nat, defaultColor: nat): (r: nat)
    ensures byte < colorCount ==> r == byte
    ensures byte >= colorCount ==> r == defaultColor
  {
    if byte < colorCount then byte else defaultColor
  }

  /** One setter call: each setter writes its own field and nothing else. */
  function Apply(p: BlockPackage, call: SetterCall, colorCount: nat, defaultColor: nat): (r: BlockPackage)
    ensures call.DeclarePackageId? ==> r == p.(info := p.info.(id := call.id))
    ensures call.SetName? ==> r == p.(name := call.name)
    ensures call.SetDescription? ==> r == p.(description := p.basePath + call.path)
    ensures call.SetColor? ==> r == p.(color := ColorOf(call.byte, colorCount, defaultColor))
    ensures call.SetShape? ==> r == p.(shape := ShapeOf(call.bools))
    ensures call.SetMutator? ==> r == p
  {
    match call
    case DeclarePackageId(id) => p.(info := p.info.(id := id))
    case SetName(name) => p.(name := name)
    case SetDescription(path) => p.(description := p.basePath + path)
    case SetColor(byte) => p.(color := ColorOf(byte, colorCount, defaultColor))
    case SetShape(bools) => p.(shape := ShapeOf(bools))
    case SetMutator => p
  }

  function ApplyAll(p: BlockPackage, calls: seq<SetterCall>, colorCount: nat, defaultColor: nat): (r: BlockPackage)
    ensures r.info.category == p.info.category && r.info.namespace == p.info.namespace
    ensures r.info.requirements == p.info.requirements && r.basePath == p.basePath && r.isProgram == p.isProgram
    decreases |calls|
  {
    if calls == [] then p
    else ApplyAll(Apply(p, calls[0], colorCount, defaultColor), calls[1..], colorCount, defaultColor)
  }

  /**
   * `load_new`: without a `package_init` function the default package is returned
   * with only its info set; otherwise the setters the script calls are applied in
   * order to that package.
   */
  function LoadNew(info: PackageInfo, basePath: string, init: Option<seq<SetterCall>>, colorCount: nat, defaultColor: nat)
    : (r: BlockPackage)
    ensures init.None? ==> r == DefaultPackage(info, basePath, defaultColor)
    ensures r.basePath == basePath && !r.isProgram
    ensures r.info.category == info.category && r.info.namespace == info.namespace
  {
    match init
    case None => DefaultPackage(info, basePath, defaultColor)
    case Some(calls) => ApplyAll(DefaultPackage(info, basePath, defaultColor), calls, colorCount, defaultColor)
  }

  /** The field a setter writes; calls on different fields commute. */
  function Field(call: SetterCall): nat {
    match call
    case DeclarePackageId(_) => 0
    case SetName(_) => 1
    case SetDescription(_) => 2
    case SetColor(_) => 3
    case SetShape(_) => 4
    case SetMutator => 5
  }

  lemma {:induction false} SettersCommute(p: BlockPackage, a: SetterCall, b: SetterCall, colorCount: nat, defaultColor: nat)
    requires Field(a) != Field(b)
    ensures Apply(Apply(p, a, colorCount, defaultColor), b, colorCount, defaultColor)
         == Apply(Apply(p, b, colorCount, defaultColor), a, colorCount, defaultColor)
  {
    match a
    case DeclarePackageId(_) =>
    case SetName(_) =>
    case SetDescription(_) =>
    case SetColor(_) =>
    case SetShape(_) =>
    case SetMutator =>
  }

  /** A setter call on the same field as an earlier one overwrites it. */
  lemma {:induction false} LaterSetterWins(p: BlockPackage, a: SetterCall, b: SetterCall, colorCount: nat, defaultColor: nat)
    requires Field(a) == Field(b)
    ensures Apply(Apply(p, a, colorCount, defaultColor), b, colorCount, defaultColor) == Apply(p, b, colorCount, defaultColor)
  {
  }

  /** Applying calls one list after another is applying their concatenation. */
  lemma {:induction false} ApplyAllAppend(p: BlockPackage, xs: seq<SetterCall>, ys: seq<SetterCall>, colorCount: nat, defaultColor: nat)
    ensures ApplyAll(p, xs + ys, colorCount, defaultColor)
         == ApplyAll(ApplyAll(p, xs, colorCount, defaultColor), ys, colorCount, defaultColor)
    decreases |xs|
  {
    if xs == [] {
      assert xs + ys == ys;
    } else {
      assert (xs + ys)[1..] == xs[1..] + ys;
      ApplyAllAppend(Apply(p, xs[0], colorCount, defaultColor), xs[1..], ys, colorCount, defaultColor);
    }
  }

  /** The last `set_shape` a script makes decides the whole shape, whatever came before. */
  lemma {:induction false} LastShapeDecides(p: BlockPackage, calls: seq<SetterCall>, bools: seq<bool>, colorCount: nat, defaultColor: nat)
    ensures ApplyAll(p, calls + [SetShape(bools)], colorCount, defaultColor).shape == ShapeOf(bools)
  {
    ApplyAllAppend(p, calls, [SetShape(bools)], colorCount, defaultColor);
    var q := ApplyAll(p, calls, colorCount, defaultColor);
    assert ApplyAll(q, [SetShape(bools)], colorCount, defaultColor) == ApplyAll(Apply(q, SetShape(bools), colorCount, defaultColor), [], colorCount, defaultColor);
  }
}
