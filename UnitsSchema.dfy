/**
 * Base::UnitsSchemaInternal::schemaTranslate
 * (src/Base/UnitsSchemaInternal.cpp:22-179): picks the unit a quantity is
 * shown in and the factor its internal value (mm, kg, s) is divided by.
 * The choice depends on the quantity's unit and on the magnitude of its
 * value, compared against fixed thresholds; the values are exact reals
 * here, not doubles. The final `toLocale` formatting is left out.
 */
module UnitsSchema {

  /**
   * The units the cascade tells apart. The source compares unit
   * signatures, so Pressure and Stress, which share one, take the same
   * branch.
   */
  datatype Unit =
    | Length | Area | Angle | Mass | Density
    | ThermalConductivity | ThermalExpansionCoefficient | SpecificHeat | ThermalTransferCoefficient
    | Pressure | Stress | Power | ElectricPotential | SpecificEnergy | HeatFlux | Velocity | DynamicViscosity
    | OtherUnit

  /** The chosen unit text and factor. */
  datatype Choice = Choice(unitString: string, factor: real)

  function Abs(x: real): real
  {
    if x < 0.0 then -x else x
  }

  /**
   * `schemaTranslate`'s choice for a quantity with the given unit, the
   * unit's own text `ownString` (`Unit::getString`) and the value.
   */
  function Translate(unit: Unit, ownString: string, value: real): (r: Choice)
    ensures r.factor > 0.0
  {
    var v := Abs(value);
    match unit
    case Length =>
      if v < 0.000000001 then Choice("mm", 1.0)
      else if v < 0.001 then Choice("nm", 0.000001)
      else if v < 0.1 then Choice("\U{00B5}m", 0.001)
      else if v < 10000.0 then Choice("mm", 1.0)
      else if v < 10000000.0 then Choice("m", 1000.0)
      else if v < 100000000000.0 then Choice("km", 1000000.0)
      else Choice("mm", 1.0)
    case Area => Choice(ownString, 1.0)
    case Angle => Choice("\U{00B0}", 1.0)
    case Mass => Choice(ownString, 1.0)
    case Density =>
      if v < 0.0001 then Choice("kg/m^3", 0.000000001)
      else if v < 1.0 then Choice("kg/cm^3", 0.001)
      else Choice("kg/mm^3", 1.0)
    case ThermalConductivity =>
      if v > 1000000.0 then Choice("W/mm/K", 1000000.0) else Choice("W/m/K", 1000.0)
    case ThermalExpansionCoefficient =>
      if v < 0.001 then Choice("\U{00B5}m/m/K", 0.000001) else Choice("mm/mm/K", 1.0)
    case SpecificHeat => Choice("J/kg/K", 1000000.0)
    case ThermalTransferCoefficient => Choice("W/m^2/K", 1.0)
    case Pressure => PressureChoice(v)
    case Stress => PressureChoice(v)
    case Power => Choice("W", 1000000.0)
    case ElectricPotential => Choice("V", 1000000.0)
    case SpecificEnergy => Choice("m^2/s^2", 1000000.0)
    case HeatFlux => Choice("W/m^2", 1.0)
    case Velocity => Choice("mm/s", 1.0)
    case DynamicViscosity => Choice("kg/(m*s)", 0.001)
    case OtherUnit => Choice(ownString, 1.0)
  }

  /** The Pressure/Stress cascade (UnitsSchemaInternal.cpp:126-147), on a magnitude. */
  function PressureChoice(v: real): Choice
  {
    if v < 10.0 then Choice("Pa", 0.001)
    else if v < 10000.0 then Choice("kPa", 1.0)
    else if v < 10000000.0 then Choice("MPa", 1000.0)
    else if v < 10000000000.0 then Choice("GPa", 1000000.0)
    else Choice("Pa", 0.001)
  }

  /** A quantity and its negation are shown in the same unit with the same factor. */
  lemma NegationInvariant(unit: Unit, ownString: string, value: real)
    ensures Translate(unit, ownString, -value) == Translate(unit, ownString, value)
  {
    assert Abs(-value) == Abs(value);
  }

  /**
   * A range table: each row gives an exclusive upper bound on the magnitude
   * and the choice below it; magnitudes past the last bound get the
   * fallback.
   */
  datatype Row = Row(below: real, choice: Choice)

  function Lookup(table: seq<Row>, fallback: Choice, v: real): Choice
  {
    if table == [] then fallback
    else if v < table[0].below then table[0].choice
    else Lookup(table[1..], fallback, v)
  }

  const LengthTable := [
    Row(0.000000001, Choice("mm", 1.0)),
    Row(0.001, Choice("nm", 0.000001)),
    Row(0.1, Choice("\U{00B5}m", 0.001)),
    Row(10000.0, Choice("mm", 1.0)),
    Row(10000000.0, Choice("m", 1000.0)),
    Row(100000000000.0, Choice("km", 1000000.0))]

  const PressureTable := [
    Row(10.0, Choice("Pa", 0.001)),
    Row(10000.0, Choice("kPa", 1.0)),
    Row(10000000.0, Choice("MPa", 1000.0)),
    Row(10000000000.0, Choice("GPa", 1000000.0))]

  const DensityTable := [
    Row(0.0001, Choice("kg/m^3", 0.000000001)),
    Row(1.0, Choice("kg/cm^3", 0.001))]

  /** The table's bounds increase strictly, so each row covers one interval. */
  predicate Increasing(table: seq<Row>)
  {
    forall i, j :: 0 <= i < j < |table| ==> table[i].below < table[j].below
  }

  /**
   * The row a magnitude falls in: the first row whose bound exceeds it,
   * and every earlier bound is at most the magnitude.
   */
  lemma {:induction false} LookupFindsInterval(table: seq<Row>, fallback: Choice, v: real, i: nat)
    requires Increasing(table) && i < |table|
    requires (i == 0 || table[i - 1].below <= v) && v < table[i].below
    ensures Lookup(table, fallback, v) == table[i].choice
  {
    if i > 0 {
      assert table[0].below <= table[i - 1].below;
      assert Increasing(table[1..]);
      LookupFindsInterval(table[1..], fallback, v, i - 1);
    }
  }

  /** Past every bound of the table, the fallback applies. */
  lemma {:induction false} LookupPastEnd(table: seq<Row>, fallback: Choice, v: real)
    requires forall k :: 0 <= k < |table| ==> table[k].below <= v
    ensures Lookup(table, fallback, v) == fallback
  {
    if table != [] {
      assert forall k :: 0 <= k < |table[1..]| ==> table[1..][k] == table[k + 1];
      LookupPastEnd(table[1..], fallback, v);
    }
  }

  /**
   * The Length cascade is the range table mm below 1e-9, nm below 1e-3, µm
   * below 0.1, mm below 1e4, m below 1e7, km below 1e11, and mm past it.
   */
  lemma LengthIsRangeTable(ownString: string, value: real)
    ensures Translate(Length, ownString, value) == Lookup(LengthTable, Choice("mm", 1.0), Abs(value))
  {
    var v := Abs(value);
    var f := Choice("mm", 1.0);
    assert Increasing(LengthTable);
    if v < 0.000000001 { LookupFindsInterval(LengthTable, f, v, 0); }
    else if v < 0.001 { LookupFindsInterval(LengthTable, f, v, 1); }
    else if v < 0.1 { LookupFindsInterval(LengthTable, f, v, 2); }
    else if v < 10000.0 { LookupFindsInterval(LengthTable, f, v, 3); }
    else if v < 10000000.0 { LookupFindsInterval(LengthTable, f, v, 4); }
    else if v < 100000000000.0 { LookupFindsInterval(LengthTable, f, v, 5); }
    else { LookupPastEnd(LengthTable, f, v); }
  }

  /**
   * The Pressure and Stress cascade is the range table Pa below 10, kPa
   * below 1e4, MPa below 1e7, GPa below 1e10, and Pa past it.
   */
  lemma PressureIsRangeTable(ownString: string, value: real)
    ensures Translate(Pressure, ownString, value) == Lookup(PressureTable, Choice("Pa", 0.001), Abs(value))
    ensures Translate(Stress, ownString, value) == Translate(Pressure, ownString, value)
  {
    var v := Abs(value);
    var f := Choice("Pa", 0.001);
    assert Increasing(PressureTable);
    if v < 10.0 { LookupFindsInterval(PressureTable, f, v, 0); }
    else if v < 10000.0 { LookupFindsInterval(PressureTable, f, v, 1); }
    else if v < 10000000.0 { LookupFindsInterval(PressureTable, f, v, 2); }
    else if v < 10000000000.0 { LookupFindsInterval(PressureTable, f, v, 3); }
    else { LookupPastEnd(PressureTable, f, v); }
  }

  /** The Density cascade is the range table kg/m^3 below 1e-4, kg/cm^3 below 1, kg/mm^3 past it. */
  lemma DensityIsRangeTable(ownString: string, value: real)
    ensures Translate(Density, ownString, value) == Lookup(DensityTable, Choice("kg/mm^3", 1.0), Abs(value))
  {
    var v := Abs(value);
    var f := Choice("kg/mm^3", 1.0);
    assert Increasing(DensityTable);
    if v < 0.0001 { LookupFindsInterval(DensityTable, f, v, 0); }
    else if v < 1.0 { LookupFindsInterval(DensityTable, f, v, 1); }
    else { LookupPastEnd(DensityTable, f, v); }
  }

  /**
   * Outside the two scientific-notation ranges a length is shown as a
   * number between 0.001 and 100000 of the chosen unit.
   */
  lemma LengthShownReadably(ownString: string, value: real)
    requires 0.000000001 <= Abs(value) < 100000000000.0
    ensures var c := Translate(Length, ownString, value);
            0.001 <= Abs(value) / c.factor < 100000.0
  {
    var v := Abs(value);
    var c := Translate(Length, ownString, value);
    if v < 0.001 {
      assert c.factor == 0.000001 && v / c.factor == v * 1000000.0;
    } else if v < 0.1 {
      assert c.factor == 0.001 && v / c.factor == v * 1000.0;
    } else if v < 10000.0 {
      assert c.factor == 1.0;
    } else if v < 10000000.0 {
      assert c.factor == 1000.0 && v / c.factor == v * 0.001;
    } else {
      assert c.factor == 1000000.0 && v / c.factor == v * 0.000001;
    }
  }

  /**
   * ThermalConductivity switches to W/mm/K only strictly above 1e6; exactly
   * 1e6 stays in W/m/K.
   */
  lemma ThermalConductivityThreshold(ownString: string, value: real)
    ensures Translate(ThermalConductivity, ownString, value).unitString == "W/mm/K" <==> Abs(value) > 1000000.0
  {
    var c := Translate(ThermalConductivity, ownString, value);
    if Abs(value) <= 1000000.0 {
      assert c == Choice("W/m/K", 1000.0);
      assert c.unitString[3] != "W/mm/K"[3];
    }
  }
}
