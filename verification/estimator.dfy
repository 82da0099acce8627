/** The quick-estimate calculator (src/components/EstimatorCalculator.tsx):
    a price table, a material cost that depends on how each sign type is
    priced, a labour term, and a markup. Arithmetic is over exact reals. */
module Estimator {

  import opened Strings

  const LaborRate: real := 85.0
  const Markup: real := 1.4

  /** The sign types offered by the selector, each under its source value
      ("acrylic-plaque", "cast-aluminum", "vinyl-graphics", "ada-sign"), and
      `Unlisted` for a value that is none of these four, which the price
      table does not list. `SignTypeOf` is the only way the model builds
      one from a select value. */
  datatype SignType = AcrylicPlaque | CastAluminum | VinylGraphics | AdaSign | Unlisted(value: string)

  /** The select values of the four listed sign types. */
  const SignTypeValues: seq<string> := ["acrylic-plaque", "cast-aluminum", "vinyl-graphics", "ada-sign"]

  /** A select value as a sign type: the four listed values map to their
      constructors, and only another value is `Unlisted`. */
  function SignTypeOf(value: string): (t: SignType)
    ensures t.Unlisted? <==> value !in SignTypeValues
    ensures t.Unlisted? ==> t.value == value
    ensures value == "ada-sign" ==> t == AdaSign
  {
    if value == "acrylic-plaque" then AcrylicPlaque
    else if value == "cast-aluminum" then CastAluminum
    else if value == "vinyl-graphics" then VinylGraphics
    else if value == "ada-sign" then AdaSign
    else Unlisted(value)
  }

  /** The material table: base price per sign type. */
  function BasePrice(t: SignType): (b: Option<real>)
    ensures b.Some? <==> !t.Unlisted?
    ensures b.Some? ==> b.value > 0.0
  {
    match t
    case AcrylicPlaque => Some(45.0)
    case CastAluminum => Some(120.0)
    case VinylGraphics => Some(15.0)
    case AdaSign => Some(35.0)
    case Unlisted(_) => None
  }

  /** The calculator's inputs; width and height are in inches. */
  datatype Inputs = Inputs(signType: SignType, quantity: real, width: real, height: real, installHours: real)

  /** The inputs on first render: one 8 x 8 ADA sign, half an hour to install. */
  function InitialInputs(): (i: Inputs)
    ensures i.signType == AdaSign && i.quantity == 1.0 && i.width == 8.0 && i.height == 8.0
    ensures i.installHours == 0.5
  {
    Inputs(AdaSign, 1.0, 8.0, 8.0, 0.5)
  }

  /** Square feet of a sign given in inches. */
  function SquareFeet(i: Inputs): real {
    i.width * i.height / 144.0
  }

  /** The material cost of one piece: cast aluminum by letter height in
      feet, ADA signs per piece, everything else by area in square feet. */
  function UnitMaterial(i: Inputs): (c: real)
    requires !i.signType.Unlisted?
    ensures i.width >= 0.0 && i.height >= 0.0 ==> c >= 0.0
  {
    var base := BasePrice(i.signType).value;
    match i.signType
    case CastAluminum =>
      assert i.height >= 0.0 ==> i.height / 12.0 >= 0.0;
      base * (i.height / 12.0)
    case AdaSign => base
    case _ =>
      assert i.width >= 0.0 && i.height >= 0.0 ==> i.width * i.height >= 0.0;
      base * SquareFeet(i)
  }

  /** Material cost: the unit cost times the quantity; an unlisted sign type
      has no table entry and the source fails reading its base price. */
  function MaterialCost(i: Inputs): (m: Option<real>)
    ensures m.None? <==> i.signType.Unlisted?
    ensures m.Some? ==> m.value == UnitMaterial(i) * i.quantity
  {
    if i.signType.Unlisted? then None else Some(UnitMaterial(i) * i.quantity)
  }

  /** The pricing rule of each listed sign type. */
  lemma PricingRules(i: Inputs)
    ensures i.signType == CastAluminum ==> MaterialCost(i).value == 120.0 * (i.height / 12.0) * i.quantity
    ensures i.signType == AdaSign ==> MaterialCost(i).value == 35.0 * i.quantity
    ensures i.signType == AcrylicPlaque ==> MaterialCost(i).value == 45.0 * SquareFeet(i) * i.quantity
    ensures i.signType == VinylGraphics ==> MaterialCost(i).value == 15.0 * SquareFeet(i) * i.quantity
  {
  }

  /** Labour: hours at the hourly rate. */
  function LaborCost(installHours: real): real {
    installHours * LaborRate
  }

  /** `calculateEstimate`: material plus labour, marked up by 40%. */
  function Estimate(i: Inputs): (total: Option<real>)
    ensures total.None? <==> MaterialCost(i).None?
    ensures total.Some? ==> total.value == (MaterialCost(i).value + i.installHours * 85.0) * 1.4
  {
    match MaterialCost(i)
    case None => None
    case Some(m) => Some((m + LaborCost(i.installHours)) * Markup)
  }

  /** Reset: quantity back to 1 and hours back to 0.5; the sign type and the
      dimensions stay. */
  function Reset(i: Inputs): (j: Inputs)
    ensures j.quantity == 1.0 && j.installHours == 0.5
    ensures j.signType == i.signType && j.width == i.width && j.height == i.height
  {
    i.(quantity := 1.0, installHours := 0.5)
  }

  // ---- Properties ------------------------------------------------------------

  /** The initial inputs are estimated at exactly 108.5. */
  lemma InitialEstimate()
    ensures Estimate(InitialInputs()) == Some(108.5)
  {
  }

  /** Reset on the initial sign and dimensions gives the initial estimate again. */
  lemma ResetRestoresInitialEstimate(i: Inputs)
    requires i.signType == AdaSign && i.width == 8.0 && i.height == 8.0
    ensures Estimate(Reset(i)) == Some(108.5)
  {
  }

  /** ADA signs are priced per piece: width and height do not matter. */
  lemma AdaIgnoresDimensions(i: Inputs, w: real, h: real)
    requires i.signType == AdaSign
    ensures Estimate(i.(width := w, height := h)) == Estimate(i)
  {
    var j := i.(width := w, height := h);
    assert UnitMaterial(j) == UnitMaterial(i);
    assert MaterialCost(j) == MaterialCost(i);
  }

  /** Cast aluminum is priced by height: the width does not matter. */
  lemma CastAluminumIgnoresWidth(i: Inputs, w: real)
    requires i.signType == CastAluminum
    ensures Estimate(i.(width := w)).value == Estimate(i).value
  {
    var j := i.(width := w);
    assert UnitMaterial(j) == UnitMaterial(i);
  }

  /** The labour term depends on the hours alone: one more hour adds the
      marked-up rate, 119, whatever the sign, quantity or size. */
  lemma HourAddsMarkedUpRate(i: Inputs)
    requires !i.signType.Unlisted?
    ensures Estimate(i.(installHours := i.installHours + 1.0)).value == Estimate(i).value + 119.0
  {
  }

  /** An unknown sign type has no estimate. */
  lemma UnknownTypeHasNoEstimate(i: Inputs)
    requires i.signType.Unlisted?
    ensures Estimate(i).None?
  {
  }

  /** Non-negative inputs for a listed sign type give a non-negative total. */
  lemma EstimateNonNegative(i: Inputs)
    requires !i.signType.Unlisted?
    requires i.quantity >= 0.0 && i.width >= 0.0 && i.height >= 0.0 && i.installHours >= 0.0
    ensures Estimate(i).value >= 0.0
  {
    var c := UnitMaterial(i);
    assert c * i.quantity >= 0.0;
  }

  /** More signs never cost less (sizes non-negative). */
  lemma EstimateMonotoneInQuantity(i: Inputs, q: real)
    requires !i.signType.Unlisted?
    requires i.width >= 0.0 && i.height >= 0.0 && i.quantity <= q
    ensures Estimate(i).value <= Estimate(i.(quantity := q)).value
  {
    var c := UnitMaterial(i);
    assert UnitMaterial(i.(quantity := q)) == c;
    assert c * i.quantity <= c * q;
  }
}
