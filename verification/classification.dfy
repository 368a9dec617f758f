/** The six adult BMI bands of the World Health Organization table, the
    order in which the calculator tests them, and the Portuguese label and
    colour it shows for each. */
module Classification {
  import opened Wrappers

  datatype Band = Underweight | NormalWeight | Overweight | ObesityI | ObesityII | ObesityIII

  /** Position of a band in the table, lightest first. */
  function Rank(b: Band): (n: nat)
    ensures n < 6
  {
    match b
    case Underweight => 0
    case NormalWeight => 1
    case Overweight => 2
    case ObesityI => 3
    case ObesityII => 4
    case ObesityIII => 5
  }

  /** The band at a position of the table. */
  function BandAt(n: nat): (b: Band)
    requires n < 6
    ensures Rank(b) == n
  {
    [Underweight, NormalWeight, Overweight, ObesityI, ObesityII, ObesityIII][n]
  }

  /** Lower bounds of the five upper bands; band `i + 1` starts at
      `Thresholds[i]`, band `i` ends just below it. */
  const Thresholds: seq<real> := [18.5, 25.0, 30.0, 35.0, 40.0]

  /** The half-open interval of band `b`: closed below, open above; the
      first band has no lower end and the last no upper end. */
  predicate InBand(bmi: real, b: Band) {
    (Rank(b) == 0 || Thresholds[Rank(b) - 1] <= bmi) &&
    (Rank(b) == 5 || bmi < Thresholds[Rank(b)])
  }

  /** The `if / else if` chain on `resultado`, tested in ascending order
      with the redundant lower-bound tests the source writes out. */
  function Classify(bmi: real): (b: Band)
    ensures InBand(bmi, b)
  {
    if bmi < 18.5 then Underweight
    else if bmi >= 18.5 && bmi < 25.0 then NormalWeight
    else if bmi >= 25.0 && bmi < 30.0 then Overweight
    else if bmi >= 30.0 && bmi < 35.0 then ObesityI
    else if bmi >= 35.0 && bmi < 40.0 then ObesityII
    else ObesityIII
  }

  /** Classification is total and the bands do not overlap: every BMI lies
      in exactly one band, the one the chain picks. */
  lemma ClassifyExactlyOne(bmi: real, b: Band)
    ensures InBand(bmi, b) <==> Classify(bmi) == b
  {
  }

  /** A boundary value belongs to the band it opens. */
  lemma BoundaryGoesUp(i: nat)
    requires i < |Thresholds|
    ensures Classify(Thresholds[i]) == BandAt(i + 1)
  {
  }

  /** How many of the thresholds `ts` a value has reached. */
  function Reached(ts: seq<real>, x: real): (n: nat)
    ensures n <= |ts|
  {
    if ts == [] then 0 else (if ts[0] <= x then 1 else 0) + Reached(ts[1..], x)
  }

  lemma {:induction false} ReachedMonotone(ts: seq<real>, x: real, y: real)
    requires x <= y
    ensures Reached(ts, x) <= Reached(ts, y)
  {
    if ts != [] {
      ReachedMonotone(ts[1..], x, y);
    }
  }

  /** Independent reading of the table: the band of a BMI is the number of
      thresholds it has reached. */
  lemma ClassifyCountsThresholds(bmi: real)
    ensures Rank(Classify(bmi)) == Reached(Thresholds, bmi)
  {
    assert Reached([40.0], bmi) == (if 40.0 <= bmi then 1 else 0) by {
      assert [40.0][1..] == [];
    }
    assert Reached([35.0, 40.0], bmi) == (if 35.0 <= bmi then 1 else 0) + Reached([40.0], bmi) by {
      assert [35.0, 40.0][1..] == [40.0];
    }
    assert Reached([30.0, 35.0, 40.0], bmi) == (if 30.0 <= bmi then 1 else 0) + Reached([35.0, 40.0], bmi) by {
      assert [30.0, 35.0, 40.0][1..] == [35.0, 40.0];
    }
    assert Reached([25.0, 30.0, 35.0, 40.0], bmi)
        == (if 25.0 <= bmi then 1 else 0) + Reached([30.0, 35.0, 40.0], bmi) by {
      assert [25.0, 30.0, 35.0, 40.0][1..] == [30.0, 35.0, 40.0];
    }
    assert Thresholds[1..] == [25.0, 30.0, 35.0, 40.0];
  }

  /** A larger BMI never falls into an earlier band. */
  lemma ClassifyMonotone(x: real, y: real)
    requires x <= y
    ensures Rank(Classify(x)) <= Rank(Classify(y))
  {
    ClassifyCountsThresholds(x);
    ClassifyCountsThresholds(y);
    ReachedMonotone(Thresholds, x, y);
  }

  /** The label the calculator shows for a band. */
  function Label(b: Band): (s: string)
    ensures s != []
  {
    match b
    case Underweight => "Abaixo do Peso"
    case NormalWeight => "Peso Normal"
    case Overweight => "Sobrepeso"
    case ObesityI => "Obesidade Grau I"
    case ObesityII => "Obesidade Grau II (Severa)"
    case ObesityIII => "Obesidade Grau III (Mórbida)"
  }

  /** The colour the calculator shows the label in. */
  function Color(b: Band): (s: string)
    ensures |s| == 7 && s[0] == '#'
    ensures forall i :: 1 <= i < |s| ==> s[i] in "0123456789ABCDEF"
  {
    match b
    case Underweight => "#F4A460"
    case NormalWeight => "#2ECC71"
    case Overweight => "#FFD700"
    case ObesityI => "#FF8C00"
    case ObesityII => "#FF4500"
    case ObesityIII => "#8B0000"
  }

  /** Reading a label back: the band whose label it is, if any. */
  function BandOfLabel(s: string): (r: Option<Band>)
    ensures forall b :: r == Some(b) <==> Label(b) == s
  {
    if s == Label(Underweight) then Some(Underweight)
    else if s == Label(NormalWeight) then Some(NormalWeight)
    else if s == Label(Overweight) then Some(Overweight)
    else if s == Label(ObesityI) then Some(ObesityI)
    else if s == Label(ObesityII) then Some(ObesityII)
    else if s == Label(ObesityIII) then Some(ObesityIII)
    else None
  }

  /** No two bands share a colour, so a colour names its band. */
  lemma ColorsDistinct(b: Band, c: Band)
    ensures Color(b) == Color(c) <==> b == c
  {
  }
}
