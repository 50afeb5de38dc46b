/**
 * The built-in CRT items, in the order the module registers them. Each
 * entry gives the registry key (the decorated function's name), the
 * question's variable name, its widget and the two reference answers
 * passed to `register`. Question text, choices and input attributes are
 * presentation and are not part of this model.
 */
module Items {
  import opened Wrappers
  import opened Coercion
  import opened Hemlock
  import opened ResponseAssessor

  datatype Item = Item(key: string, varName: string, widget: Widget, correct: Reference, intuitive: Reference)

  const Builtins: seq<Item> := [
    Item("bat_ball", "CRT_BatBall", InputWidget, Num(5.0), Num(10.0)),
    Item("widgets", "CRT_Widgets", InputWidget, Num(5.0), Num(100.0)),
    Item("lily_pads", "CRT_LilyPads", InputWidget, Num(47.0), Num(24.0)),
    Item("flowers", "CRT_Flowers", BinaryWidget, Int(0), Int(1)),
    Item("sun_tea", "CRT_SunTea", InputWidget, Num(5.0), Num(3.0)),
    Item("green_round", "CRT_GreenRound", CheckWidget, Int(-1), Int(1)),
    Item("auto", "CRT_Auto", BinaryWidget, Int(0), Int(1)),
    Item("rabbits", "CRT_Rabbits", BinaryWidget, Int(0), Int(1)),
    Item("whales", "CRT_Whales", BinaryWidget, Int(1), Int(0)),
    Item("athletes", "CRT_Athletes", BinaryWidget, Int(0), Int(1)),
    Item("roses", "CRT_Roses", BinaryWidget, Int(0), Int(1)),
    Item("boats", "CRT_Boats", BinaryWidget, Int(1), Int(0)),
    Item("cigarettes", "CRT_Cigarettes", BinaryWidget, Int(1), Int(0)),
    Item("bears", "CRT_Bears", BinaryWidget, Int(1), Int(0)),
    Item("wives", "CRT_Wives", BinaryWidget, Int(0), Int(1)),
    Item("oysters", "CRT_Oysters", BinaryWidget, Int(1), Int(0)),
    Item("dogs", "CRT_Dogs", BinaryWidget, Int(1), Int(0)),
    Item("nurses", "CRT_Nurses", InputWidget, Num(2.0), Num(200.0)),
    Item("soup_salad", "CRT_SoupSalad", InputWidget, Num(2.25), Num(2.5)),
    Item("drinking_water", "CRT_DrinkingWater", InputWidget, Num(4.0), Num(9.0)),
    Item("students", "CRT_Students", InputWidget, Num(29.0), Num(30.0)),
    Item("pig", "CRT_Pig", InputWidget, Num(20.0), Num(10.0)),
    Item("stock", "CRT_Stock", CheckWidget, Str("loss"), Str("gain"))
  ]

  /** In every built-in item the two references have one type and differ. */
  lemma BuiltinReferencesDiffer()
    ensures |Builtins| == 23
    ensures forall k :: 0 <= k < |Builtins| ==>
      SameKind(Builtins[k].correct, Builtins[k].intuitive) && Builtins[k].correct != Builtins[k].intuitive
  {
  }

  /** No two built-in items share a registry key. */
  lemma BuiltinKeysDistinct()
    ensures forall j, k :: 0 <= j < k < |Builtins| ==> Builtins[j].key != Builtins[k].key
  {
  }

  /** No two built-in items share a question variable name. */
  lemma BuiltinVarNamesDistinct()
    ensures forall j, k :: 0 <= j < k < |Builtins| ==> Builtins[j].varName != Builtins[k].varName
  {
  }

  /** No answer to a built-in item is scored both correct and intuitive. */
  lemma BuiltinNeverBothFlags(k: nat, data: Data)
    requires k < |Builtins|
    ensures !(Flag(Builtins[k].correct, data) == Success(Some(1)) && Flag(Builtins[k].intuitive, data) == Success(Some(1)))
  {
    BuiltinReferencesDiffer();
    NeverBothFlags(Builtins[k].correct, Builtins[k].intuitive, data);
  }

  /** On a page without embedded data, a successful assessment leaves just the two flags. */
  lemma AssessOnEmptyPage(v: string, data: Data, correct: Reference, intuitive: Reference, c: Option<int>, i: Option<int>)
    requires Flag(correct, data) == Success(c) && Flag(intuitive, data) == Success(i)
    ensures Assess([], v, data, correct, intuitive) ==
      Assessment([Embedded(CorrectName(v), c, -1), Embedded(IntuitiveName(v), i, -1)], None)
  {
    assert Others([], v) == [];
  }

  const BatBall := Builtins[0]

  /** The bat-and-ball item (correct 5 cents, intuitive 10 cents) on a few typed answers. */
  lemma BatBallScenario()
    ensures BatBall.varName == "CRT_BatBall"
    ensures Assess([], BatBall.varName, Text("5"), BatBall.correct, BatBall.intuitive).embedded ==
      [Embedded("CRT_BatBallCorrect", Some(1), -1), Embedded("CRT_BatBallIntuitive", Some(0), -1)]
    ensures Assess([], BatBall.varName, Text("10"), BatBall.correct, BatBall.intuitive).embedded ==
      [Embedded("CRT_BatBallCorrect", Some(0), -1), Embedded("CRT_BatBallIntuitive", Some(1), -1)]
    ensures Assess([], BatBall.varName, Text("7"), BatBall.correct, BatBall.intuitive).embedded ==
      [Embedded("CRT_BatBallCorrect", Some(0), -1), Embedded("CRT_BatBallIntuitive", Some(0), -1)]
    ensures Assess([], BatBall.varName, Text(""), BatBall.correct, BatBall.intuitive).embedded ==
      [Embedded("CRT_BatBallCorrect", None, -1), Embedded("CRT_BatBallIntuitive", None, -1)]
  {
    assert BatBall == Item("bat_ball", "CRT_BatBall", InputWidget, Num(5.0), Num(10.0));
    var v := "CRT_BatBall";
    assert CorrectName(v) == "CRT_BatBallCorrect" && IntuitiveName(v) == "CRT_BatBallIntuitive";
    assert IntToString(5) == "5";
    assert IntToString(10) == "10";
    assert IntToString(7) == "7";
    NumericTextScores(5.0, 5);
    NumericTextScores(10.0, 5);
    AssessOnEmptyPage(v, Text("5"), Num(5.0), Num(10.0), Some(1), Some(0));
    NumericTextScores(5.0, 10);
    NumericTextScores(10.0, 10);
    AssessOnEmptyPage(v, Text("10"), Num(5.0), Num(10.0), Some(0), Some(1));
    NumericTextScores(5.0, 7);
    NumericTextScores(10.0, 7);
    AssessOnEmptyPage(v, Text("7"), Num(5.0), Num(10.0), Some(0), Some(0));
    AssessOnEmptyPage(v, Text(""), Num(5.0), Num(10.0), None, None);
  }

  /** Text that is not a number, typed for the bat-and-ball item, raises; nothing is appended. */
  lemma BatBallRejectsWords()
    ensures Assess([], BatBall.varName, Text("five"), BatBall.correct, BatBall.intuitive) == Assessment([], Some(ValueError("five")))
  {
    assert BatBall == Item("bat_ball", "CRT_BatBall", InputWidget, Num(5.0), Num(10.0));
    var five := "five";
    assert five[0] == 'f';
    NonNumeralRejected(five);
    assert Flag(Num(5.0), Text("five")) == Failure(ValueError("five"));
    assert Others([], "CRT_BatBall") == [];
  }

  /** The stock item (correct "loss", intuitive "gain") on each of its choices. */
  lemma StockScenario()
    ensures Builtins[22].varName == "CRT_Stock"
    ensures Assess([], "CRT_Stock", Text("loss"), Builtins[22].correct, Builtins[22].intuitive).embedded ==
      [Embedded("CRT_StockCorrect", Some(1), -1), Embedded("CRT_StockIntuitive", Some(0), -1)]
    ensures Assess([], "CRT_Stock", Text("gain"), Builtins[22].correct, Builtins[22].intuitive).embedded ==
      [Embedded("CRT_StockCorrect", Some(0), -1), Embedded("CRT_StockIntuitive", Some(1), -1)]
    ensures Assess([], "CRT_Stock", Text("even"), Builtins[22].correct, Builtins[22].intuitive).embedded ==
      [Embedded("CRT_StockCorrect", Some(0), -1), Embedded("CRT_StockIntuitive", Some(0), -1)]
  {
    var loss, gain := Str("loss"), Str("gain");
    assert Builtins[22] == Item("stock", "CRT_Stock", CheckWidget, loss, gain);
    var v := "CRT_Stock";
    assert CorrectName(v) == "CRT_StockCorrect" && IntuitiveName(v) == "CRT_StockIntuitive";
    AssessOnEmptyPage(v, Text("loss"), loss, gain, Some(1), Some(0));
    AssessOnEmptyPage(v, Text("gain"), loss, gain, Some(0), Some(1));
    AssessOnEmptyPage(v, Text("even"), loss, gain, Some(0), Some(0));
  }
}
