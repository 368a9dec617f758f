/** Worked inputs of the calculator, from typed texts to what the screen
    shows. */
module Scenarios {
  import opened Wrappers
  import opened Decimal
  import opened Classification
  import opened Calculator

  lemma {:induction false} ParseSeventy()
    ensures ParseFloat("70") == Some(70.0)
  {
    assert NaturalValue("70") == 70 by {
      assert "70"[..1] == "7" && "7"[..0] == [];
    }
    assert "70" + [] == "70";
    ParseWhole("70", []);
  }

  lemma {:induction false} ParseZero()
    ensures ParseFloat("0") == Some(0.0)
  {
    assert "0" + [] == "0";
    ParseWhole("0", []);
  }

  lemma {:induction false} ParseOneSeventyFive()
    ensures ParseFloat("1.75") == Some(1.75)
  {
    assert NaturalValue("1") == 1 by {
      assert "1"[..0] == [];
    }
    assert FractionValue("75") == 0.75 by {
      assert "75"[1..] == "5" && "5"[1..] == [];
    }
    assert "1" + ['.'] + "75" + [] == "1.75";
    ParseDecimal("1", "75", []);
  }

  lemma {:induction false} NormalizeCommaHeight()
    ensures Normalize("1,75") == "1.75"
  {
    assert "1" + [','] + "75" == "1,75";
    NormalizeFirstComma("1", "75");
    assert "1" + ['.'] + "75" == "1.75";
  }

  /** 70 kg at 1.75 m: BMI 22.857…, shown as 22.86, "Peso Normal". */
  lemma {:induction false} NormalWeightExample()
    ensures Evaluate("70", "1.75") == Accepted(Bmi(70.0, 1.75))
    ensures ToFixed2(Bmi(70.0, 1.75)) == 22.86
    ensures Classify(Bmi(70.0, 1.75)) == NormalWeight
  {
    assert Normalize("70") == "70" && Normalize("1.75") == "1.75";
    ParseSeventy();
    ParseOneSeventyFive();
  }

  /** A decimal comma in the height gives the same result as a period. */
  lemma {:induction false} CommaHeightExample()
    ensures Evaluate("70", "1,75") == Evaluate("70", "1.75")
  {
    NormalizeCommaHeight();
    assert Normalize("1.75") == "1.75";
  }

  /** A zero weight is rejected like a missing one. */
  lemma {:induction false} ZeroWeightRejected()
    ensures Evaluate("0", "1.75") == Rejected
  {
    assert Normalize("0") == "0";
    ParseZero();
  }

  /** A zero height is rejected. */
  lemma {:induction false} ZeroHeightRejected()
    ensures Evaluate("70", "0") == Rejected
  {
    assert Normalize("0") == "0";
    ParseZero();
  }

  /** A text that starts with no number parses to NaN and is rejected. */
  lemma {:induction false} NonNumericWeightRejected()
    ensures ParseFloat("abc") == None
    ensures Evaluate("abc", "1.75") == Rejected
  {
    assert Normalize("abc") == "abc";
  }

  /** A weight typed as a lone decimal comma becomes a lone period, which
      starts no number: NaN, and the input is rejected. */
  lemma {:induction false} LoneCommaRejected()
    ensures Normalize(",") == "."
    ensures ParseFloat(".") == None
    ensures Evaluate(",", "1.75") == Rejected
  {
    assert [] + [','] + [] == ",";
    NormalizeFirstComma([], []);
    assert [] + ['.'] + [] == ".";
  }

  lemma {:induction false} NormalizeTwoCommas()
    ensures Normalize("1,7,5") == "1.7,5"
  {
    assert "1" + [','] + "7,5" == "1,7,5";
    NormalizeFirstComma("1", "7,5");
    assert "1" + ['.'] + "7,5" == "1.7,5";
  }

  lemma {:induction false} ParseOneSevenComma()
    ensures ParseFloat("1.7,5") == Some(1.7)
  {
    assert NaturalValue("1") == 1 by {
      assert "1"[..0] == [];
    }
    assert FractionValue("7") == 0.7 by {
      assert "7"[1..] == [];
    }
    assert "1" + ['.'] + "7" + ",5" == "1.7,5";
    ParseDecimal("1", "7", ",5");
  }

  /** "1,7,5": only the first comma is replaced, and the parser stops at
      the second one, so the height read is 1.7. */
  lemma {:induction false} SecondCommaIgnored()
    ensures Normalize("1,7,5") == "1.7,5"
    ensures ParseFloat(Normalize("1,7,5")) == Some(1.7)
  {
    NormalizeTwoCommas();
    ParseOneSevenComma();
  }

  lemma {:induction false} ParseMinusSeventy()
    ensures ParseFloat("-70") == Some(-70.0)
  {
    var minus: string := ['-'] + "70";
    assert ParseFloat(minus) == Some(-70.0) by {
      ParseSeventy();
      ParseFloatSign("70");
    }
    assert minus == "-70";
  }

  /** A negative weight with a positive height passes the guard and is
      shown as "Abaixo do Peso". */
  lemma {:induction false} NegativeWeightExample()
    ensures Evaluate("-70", "1.75").Accepted?
    ensures Classify(Evaluate("-70", "1.75").bmi) == Underweight
  {
    assert Normalize("-70") == "-70" && Normalize("1.75") == "1.75";
    ParseMinusSeventy();
    ParseOneSeventyFive();
    NegativeWeightIsUnderweight("-70", "1.75");
  }

  lemma {:induction false} ParseRoundingExample()
    ensures ParseFloat("99.98") == Some(99.98)
  {
    assert NaturalValue("99") == 99 by {
      assert "99"[..1] == "9" && "9"[..0] == [];
    }
    assert FractionValue("98") == 0.98 by {
      assert "98"[1..] == "8" && "8"[1..] == [];
    }
    assert "99" + ['.'] + "98" + [] == "99.98";
    ParseDecimal("99", "98", []);
  }

  lemma {:induction false} ParseTwo()
    ensures ParseFloat("2") == Some(2.0)
  {
    assert "2" + [] == "2";
    ParseWhole("2", []);
  }

  /** The display is rounded but the band is not: 99.98 kg at 2 m is a BMI
      of 24.995, shown as 25.00 (the first value of "Sobrepeso") next to
      "Peso Normal". */
  lemma {:induction false} RoundedDisplayCrossesBoundary()
    ensures AfterCalculate(Initial.(peso := "99.98", altura := "2")).imc == Some(25.0)
    ensures AfterCalculate(Initial.(peso := "99.98", altura := "2")).classificacao == Label(NormalWeight)
    ensures Classify(25.0) == Overweight
  {
    assert Normalize("99.98") == "99.98" && Normalize("2") == "2";
    ParseRoundingExample();
    ParseTwo();
    assert Evaluate("99.98", "2") == Accepted(Bmi(99.98, 2.0));
  }

  /** Calculating on the cleared screen shows the message. */
  lemma {:induction false} EmptyInputsRejected()
    ensures AfterCalculate(Initial) == Initial.(erro := InvalidMessage)
  {
    assert Normalize("") == "";
    assert ParseFloat("") == None;
  }

  /** A session on the screen: type, calculate, clear. */
  method Session() {
    var screen := new App();
    screen.peso := "70";
    screen.altura := "1,75";
    screen.Calculate();
    assert screen.State() == AfterCalculate(Initial.(peso := "70", altura := "1,75"));
    assert screen.classificacao == Label(NormalWeight) && screen.cor == Color(NormalWeight) && screen.imc == Some(22.86) by {
      CommaHeightExample();
      NormalWeightExample();
    }
    screen.Clear();
    assert screen.State() == Initial;
    screen.Calculate();
    EmptyInputsRejected();
    assert screen.erro == InvalidMessage && screen.imc == None;
  }
}
