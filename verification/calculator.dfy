/** The calculator screen: its six pieces of state, the "Calcular IMC"
    action (`calcularIMC`) that validates the two inputs, computes the BMI
    and classifies it, and the "Limpar" action (`limparCampos`) that resets
    everything. */
module Calculator {
  import opened Wrappers
  import opened Decimal
  import opened Classification

  /** The one error text the calculator shows. */
  const InvalidMessage: string := "Por favor, insira valores válidos para peso e altura."

  /** JavaScript truthiness of a parsed number: NaN and zero are falsy. */
  predicate Falsy(n: Option<real>) {
    n.None? || n.value == 0.0
  }

  datatype Outcome = Rejected | Accepted(bmi: real)

  /** Body mass index: weight in kilograms over the square of the height in
      metres. */
  function Bmi(weight: real, height: real): (bmi: real)
    requires height > 0.0
    ensures bmi * (height * height) == weight
  {
    weight / (height * height)
  }

  /** The guard `!pesoNum || !alturaNum || alturaNum <= 0` and the division
      that follows it, on the parsed weight `w` and height `h`. */
  function Decide(w: Option<real>, h: Option<real>): (o: Outcome)
    ensures o.Accepted? <==> w.Some? && w.value != 0.0 && h.Some? && h.value > 0.0
    ensures o.Accepted? ==> o.bmi * (h.value * h.value) == w.value
  {
    if Falsy(w) || Falsy(h) || h.value <= 0.0 then Rejected
    else Accepted(Bmi(w.value, h.value))
  }

  /** An accepted BMI is the weight per square of the height: multiplied
      back by the squared height it gives the weight, and it has the sign
      of the weight. */
  lemma {:induction false} DecideIsBmi(w: real, h: real)
    requires w != 0.0 && h > 0.0
    ensures Decide(Some(w), Some(h)).Accepted?
    ensures Decide(Some(w), Some(h)).bmi * (h * h) == w
    ensures Decide(Some(w), Some(h)).bmi < 0.0 <==> w < 0.0
  {
    var square := h * h;
    assert square > 0.0;
    var bmi := Bmi(w, h);
    if w < 0.0 {
      assert bmi < 0.0;
    } else {
      assert bmi > 0.0;
    }
  }

  /** `calcularIMC` up to the classification, on the two texts typed in. */
  function Evaluate(pesoText: string, alturaText: string): (o: Outcome)
    ensures pesoText == [] || alturaText == [] ==> o == Rejected
    ensures o.Accepted? ==> var w := ParseFloat(Normalize(pesoText));
      var h := ParseFloat(Normalize(alturaText));
      w.Some? && w.value != 0.0 && h.Some? && h.value > 0.0
  {
    var w := ParseFloat(Normalize(pesoText));
    var h := ParseFloat(Normalize(alturaText));
    assert pesoText == [] ==> w == None by {
      if pesoText == [] { assert Normalize(pesoText) == []; }
    }
    assert alturaText == [] ==> h == None by {
      if alturaText == [] { assert Normalize(alturaText) == []; }
    }
    Decide(w, h)
  }

  /** The first-comma-only replacement evaluates exactly as if every comma
      had been turned into a period. */
  lemma {:induction false} EvaluateAsReplacingEveryComma(pesoText: string, alturaText: string)
    ensures Evaluate(pesoText, alturaText)
         == Decide(ParseFloat(ReplaceCommas(pesoText)), ParseFloat(ReplaceCommas(alturaText)))
  {
    ParseNormalizeAsReplaceCommas(pesoText);
    ParseNormalizeAsReplaceCommas(alturaText);
  }

  /** A decimal comma and a decimal period give the same evaluation, in
      either input. */
  lemma {:induction false} CommaOrPeriodEvaluateAlike(a: string, b: string, c: string, d: string)
    requires ',' !in a && ',' !in b && ',' !in c && ',' !in d
    ensures Evaluate(a + [','] + b, c + [','] + d) == Evaluate(a + ['.'] + b, c + ['.'] + d)
  {
    CommaOrPeriodNormalizeAlike(a, b);
    CommaOrPeriodNormalizeAlike(c, d);
  }

  /** The guard lets a negative weight through when the height is positive;
      the BMI is then negative and lands in the lowest band. */
  lemma {:induction false} NegativeWeightIsUnderweight(pesoText: string, alturaText: string)
    requires ParseFloat(Normalize(pesoText)).Some? && ParseFloat(Normalize(pesoText)).value < 0.0
    requires ParseFloat(Normalize(alturaText)).Some? && ParseFloat(Normalize(alturaText)).value > 0.0
    ensures Evaluate(pesoText, alturaText).Accepted?
    ensures Evaluate(pesoText, alturaText).bmi < 0.0
    ensures Classify(Evaluate(pesoText, alturaText).bmi) == Underweight
  {
    DecideIsBmi(ParseFloat(Normalize(pesoText)).value, ParseFloat(Normalize(alturaText)).value);
  }

  /** The six pieces of state of the screen (the `useState` pairs). The
      `imc` text is kept as the number that `toFixed(2)` writes out. */
  datatype Screen = Screen(
    peso: string,
    altura: string,
    imc: Option<real>,
    classificacao: string,
    cor: string,
    erro: string)

  /** What the screen starts with, and what "Limpar" returns it to. */
  const Initial: Screen := Screen("", "", None, "", "", "")

  /** A result and a message never show together, and a label is always
      shown in its own band's colour. */
  predicate Consistent(s: Screen) {
    match s.imc
    case None => s.classificacao == "" && s.cor == "" && (s.erro == "" || s.erro == InvalidMessage)
    case Some(_) =>
      s.erro == "" &&
      match BandOfLabel(s.classificacao)
      case None => false
      case Some(b) => s.cor == Color(b)
  }

  /** The screen after "Calcular IMC": the inputs stay, the rest is
      recomputed from them alone. */
  function AfterCalculate(s: Screen): (t: Screen)
    ensures t.peso == s.peso && t.altura == s.altura
    ensures Consistent(t)
  {
    match Evaluate(s.peso, s.altura)
    case Rejected =>
      s.(imc := None, classificacao := "", cor := "", erro := InvalidMessage)
    case Accepted(bmi) =>
      var band := Classify(bmi);
      assert BandOfLabel(Label(band)) == Some(band);
      s.(imc := Some(ToFixed2(bmi)), classificacao := Label(band), cor := Color(band), erro := "")
  }

  /** Pressing "Calcular IMC" twice in a row shows the same as pressing it
      once: nothing of the previous result is read. */
  lemma {:induction false} CalculateTwiceIsOnce(s: Screen)
    ensures AfterCalculate(AfterCalculate(s)) == AfterCalculate(s)
  {
  }

  /** On a shown result, the label determines the colour and the colour
      determines the label. */
  lemma {:induction false} LabelAndColorTogether(s: Screen, b: Band)
    requires Consistent(s) && s.classificacao != ""
    ensures s.classificacao == Label(b) <==> s.cor == Color(b)
  {
    var c := BandOfLabel(s.classificacao).value;
    ColorsDistinct(b, c);
  }

  /** The `App` component's state, one field per `useState` pair.
      The input fields are assigned directly, as `onChangeText` does. */
  class App {
    var peso: string
    var altura: string
    var imc: Option<real>
    var classificacao: string
    var cor: string
    var erro: string

    function State(): Screen
      reads this
    {
      Screen(peso, altura, imc, classificacao, cor, erro)
    }

    constructor ()
      ensures State() == Initial && Consistent(State())
    {
      peso := "";
      altura := "";
      imc := None;
      classificacao := "";
      cor := "";
      erro := "";
    }

    /** `calcularIMC`: normalise and parse both inputs, reject with the
        message and a blank result, or show the rounded BMI with the label
        and colour of the unrounded one. */
    method Calculate()
      modifies this
      ensures State() == AfterCalculate(old(State()))
      ensures Consistent(State())
    {
      var pesoNum := ParseFloat(Normalize(peso));
      var alturaNum := ParseFloat(Normalize(altura));

      if Falsy(pesoNum) || Falsy(alturaNum) || alturaNum.value <= 0.0 {
        erro := InvalidMessage;
        imc := None;
        classificacao := "";
        cor := "";
        assert Decide(pesoNum, alturaNum) == Rejected;
        return;
      }

      var resultado := Bmi(pesoNum.value, alturaNum.value);
      assert Decide(pesoNum, alturaNum) == Accepted(resultado);
      erro := "";
      imc := Some(ToFixed2(resultado));

      var band := Classify(resultado);
      classificacao := Label(band);
      cor := Color(band);
    }

    /** `limparCampos`: every field back to its initial value, whatever the
        state was; doing it twice is doing it once. */
    method Clear()
      modifies this
      ensures State() == Initial && Consistent(State())
    {
      peso := "";
      altura := "";
      imc := None;
      classificacao := "";
      cor := "";
      erro := "";
    }
  }
}
