/**
 * `_assess_response`: the submit function every CRT question carries. It
 * removes the question's earlier `<var>Correct` and `<var>Intuitive` entries
 * from its page's embedded data, scores the submitted value against the
 * item's correct and intuitive answers, and appends the two new flags.
 */
module ResponseAssessor {
  import opened Wrappers
  import opened Coercion
  import opened Hemlock

  function CorrectName(v: string): string {
    v + "Correct"
  }

  function IntuitiveName(v: string): string {
    v + "Intuitive"
  }

  lemma FlagNamesDiffer(v: string)
    ensures CorrectName(v) != IntuitiveName(v)
  {
    assert |CorrectName(v)| != |IntuitiveName(v)|;
  }

  /** Whether an embedded entry holds an earlier assessment of the question named `v`. */
  predicate IsAssessmentOf(e: Embedded, v: string) {
    e.varName == CorrectName(v) || e.varName == IntuitiveName(v)
  }

  /** `prev_assessment`: the entries of an earlier assessment, in list order. */
  function PreviousAssessment(es: seq<Embedded>, v: string): (r: seq<Embedded>)
    ensures forall k :: 0 <= k < |r| ==> IsAssessmentOf(r[k], v)
    ensures forall e :: e in r <==> e in es && IsAssessmentOf(e, v)
  {
    if es == [] then []
    else if IsAssessmentOf(es[0], v) then [es[0]] + PreviousAssessment(es[1..], v)
    else PreviousAssessment(es[1..], v)
  }

  /** The entries that are not an assessment of `v`, in list order. */
  function Others(es: seq<Embedded>, v: string): (r: seq<Embedded>)
    ensures forall k :: 0 <= k < |r| ==> !IsAssessmentOf(r[k], v)
  {
    if es == [] then []
    else if IsAssessmentOf(es[0], v) then Others(es[1..], v)
    else [es[0]] + Others(es[1..], v)
  }

  /** `list.remove(x)`: the list without its first element equal to `x`. */
  function RemoveFirst(s: seq<Embedded>, x: Embedded): (r: seq<Embedded>)
    requires x in s
    ensures |r| == |s| - 1
    ensures multiset(r) + multiset{x} == multiset(s)
  {
    assert s == [s[0]] + s[1..];
    if s[0] == x then s[1..] else [s[0]] + RemoveFirst(s[1..], x)
  }

  /** The element `list.remove(x)` takes out is the first `x`; the elements around it keep their order. */
  lemma {:induction false} RemoveFirstIsFirst(s: seq<Embedded>, x: Embedded) returns (k: nat)
    requires x in s
    ensures k < |s| && s[k] == x && RemoveFirst(s, x) == s[..k] + s[k + 1..]
    ensures forall j :: 0 <= j < k ==> s[j] != x
  {
    if s[0] == x {
      k := 0;
    } else {
      var tail := s[1..];
      assert s == [s[0]] + tail;
      var k1 := RemoveFirstIsFirst(tail, x);
      k := k1 + 1;
      SpliceUnderHead(s, k);
    }
  }

  /** Removing position `k > 0` of `s` is keeping its head and removing position `k - 1` of its tail. */
  lemma SpliceUnderHead(s: seq<Embedded>, k: nat)
    requires 0 < k < |s|
    ensures [s[0]] + (s[1..][..k - 1] + s[1..][k..]) == s[..k] + s[k + 1..]
  {
    assert s[..k] == [s[0]] + s[1..][..k - 1];
    assert s[k + 1..] == s[1..][k..];
  }

  /**
   * The respondent gave no answer: the value is `None` or the empty string.
   * A chosen integer, zero included, and any non-empty text are answers.
   */
  predicate IsMissing(data: Data)
    ensures data.Whole? ==> !IsMissing(data)
    ensures data.Text? ==> (IsMissing(data) <==> data.s == [])
  {
    data == Null || data == Text("")
  }

  /**
   * One flag of an assessment: no value when the answer is missing;
   * otherwise 1 when the answer, converted to the reference's type, equals
   * the reference and 0 when it does not; a conversion that fails raises
   * its exception.
   */
  function Flag(reference: Reference, data: Data): (r: Result<Option<int>, Exception>)
    ensures r == Success(None) <==> IsMissing(data)
    ensures r.Failure? <==> !IsMissing(data) && Coerce(reference, data).Failure?
    ensures r.Failure? ==> r.error == Coerce(reference, data).error
    ensures r.Success? && r.value.Some? ==>
      && 0 <= r.value.value <= 1
      && (r.value.value == 1 <==> Coerce(reference, data) == Success(reference))
  {
    if IsMissing(data) then Success(None)
    else match Coerce(reference, data)
      case Failure(e) => Failure(e)
      case Success(c) => Success(Some(if reference == c then 1 else 0))
  }

  /** What one call of the assessor leaves on the page, and the exception it raises, if any. */
  datatype Assessment = Assessment(embedded: seq<Embedded>, raised: Option<Exception>)

  /**
   * The effect of `_assess_response` on a page whose embedded data is `es`,
   * for a question named `v` whose submitted value is `data`. The earlier
   * flags are gone whether or not scoring raises; the new ones are appended
   * only when both scores were computed.
   */
  function Assess(es: seq<Embedded>, v: string, data: Data, correct: Reference, intuitive: Reference): (r: Assessment)
    ensures |r.embedded| >= |Others(es, v)| && r.embedded[..|Others(es, v)|] == Others(es, v)
    ensures r.raised.Some? <==> Flag(correct, data).Failure? || Flag(intuitive, data).Failure?
    ensures r.raised.Some? ==> r.embedded == Others(es, v)
    ensures r.raised.None? ==>
      && |r.embedded| == |Others(es, v)| + 2
      && forall k :: |Others(es, v)| <= k < |r.embedded| ==> IsAssessmentOf(r.embedded[k], v)
  {
    var kept := Others(es, v);
    match Flag(correct, data)
    case Failure(e) => Assessment(kept, Some(e))
    case Success(c) =>
      match Flag(intuitive, data)
      case Failure(e) => Assessment(kept, Some(e))
      case Success(i) =>
        Assessment(kept + [Embedded(CorrectName(v), c, -1), Embedded(IntuitiveName(v), i, -1)], None)
  }

  // ---------------------------------------------------------------------------
  // The removal loop

  /** Removing the first stale entry leaves the rest of the stale entries and all other entries. */
  lemma {:induction false} RemoveFirstAssessment(es: seq<Embedded>, v: string)
    requires PreviousAssessment(es, v) != []
    ensures PreviousAssessment(es, v)[0] in es
    ensures PreviousAssessment(RemoveFirst(es, PreviousAssessment(es, v)[0]), v) == PreviousAssessment(es, v)[1..]
    ensures Others(RemoveFirst(es, PreviousAssessment(es, v)[0]), v) == Others(es, v)
  {
    var x := PreviousAssessment(es, v)[0];
    if IsAssessmentOf(es[0], v) {
      assert x == es[0];
      assert RemoveFirst(es, x) == es[1..];
    } else {
      assert PreviousAssessment(es, v) == PreviousAssessment(es[1..], v);
      assert es[0] != x;
      RemoveFirstAssessment(es[1..], v);
      var tail := RemoveFirst(es[1..], x);
      assert RemoveFirst(es, x) == [es[0]] + tail;
      assert ([es[0]] + tail)[1..] == tail;
    }
  }

  /** A list without stale entries is its own filtering. */
  lemma {:induction false} NoAssessmentLeft(es: seq<Embedded>, v: string)
    requires PreviousAssessment(es, v) == []
    ensures Others(es, v) == es
  {
    if es != [] {
      NoAssessmentLeft(es[1..], v);
      assert [es[0]] + es[1..] == es;
    }
  }

  /**
   * `_assess_response(question, correct, intuitive)`: updates the embedded
   * data of the question's page in place and reports the exception it raises.
   */
  method AssessResponse(question: Question, correct: Reference, intuitive: Reference) returns (raised: Option<Exception>)
    modifies question.page
    ensures question.page == null ==> raised == Some(AttributeError)
    ensures question.page != null ==>
      var a := Assess(old(question.page.embedded), question.varName, question.data, correct, intuitive);
      question.page.embedded == a.embedded && raised == a.raised
    ensures question.page != null ==>
      && question.page.name == old(question.page.name)
      && question.page.timer == old(question.page.timer)
      && question.page.questions == old(question.page.questions)
  {
    var page := question.page;
    if page == null {
      return Some(AttributeError);
    }
    var v := question.varName;
    var prev := PreviousAssessment(page.embedded, v);
    ghost var original := page.embedded;
    var k := 0;
    while k < |prev|
      invariant 0 <= k <= |prev|
      invariant PreviousAssessment(page.embedded, v) == prev[k..]
      invariant Others(page.embedded, v) == Others(original, v)
      invariant page.name == old(page.name) && page.timer == old(page.timer)
      invariant page.questions == old(page.questions)
    {
      RemoveFirstAssessment(page.embedded, v);
      page.embedded := RemoveFirst(page.embedded, prev[k]);
      k := k + 1;
    }
    NoAssessmentLeft(page.embedded, v);
    var data := question.data;
    var isCorrect := Flag(correct, data);
    if isCorrect.Failure? {
      return Some(isCorrect.error);
    }
    var isIntuitive := Flag(intuitive, data);
    if isIntuitive.Failure? {
      return Some(isIntuitive.error);
    }
    page.embedded := page.embedded + [
      Embedded(CorrectName(v), isCorrect.value, -1),
      Embedded(IntuitiveName(v), isIntuitive.value, -1)
    ];
    raised := None;
  }

  // ---------------------------------------------------------------------------
  // Properties of the filtering

  lemma {:induction false} OthersAppend(s: seq<Embedded>, t: seq<Embedded>, v: string)
    ensures Others(s + t, v) == Others(s, v) + Others(t, v)
  {
    if s != [] {
      OthersAppend(s[1..], t, v);
      assert (s + t)[1..] == s[1..] + t;
    } else {
      assert s + t == t;
    }
  }

  /** Filtering removes exactly the assessment entries: every other entry is kept. */
  lemma {:induction false} OthersKeepsEveryOther(es: seq<Embedded>, v: string, e: Embedded)
    requires !IsAssessmentOf(e, v)
    ensures e in Others(es, v) <==> e in es
  {
    if es != [] {
      OthersKeepsEveryOther(es[1..], v, e);
      assert es == [es[0]] + es[1..];
    }
  }

  lemma {:induction false} OthersIdempotent(es: seq<Embedded>, v: string)
    ensures Others(Others(es, v), v) == Others(es, v)
  {
    if es != [] {
      OthersIdempotent(es[1..], v);
      if !IsAssessmentOf(es[0], v) {
        var r := Others(es[1..], v);
        assert Others(es, v) == [es[0]] + r;
        assert ([es[0]] + r)[1..] == r;
      }
    }
  }

  // ---------------------------------------------------------------------------
  // Properties of one assessment

  /**
   * After an assessment that raised nothing, the page holds every other
   * entry in its original order, followed by exactly one `<var>Correct`
   * and exactly one `<var>Intuitive` entry, in that order, both recorded
   * once per respondent (`data_rows=-1`).
   */
  lemma AssessPlacesFlags(es: seq<Embedded>, v: string, data: Data, correct: Reference, intuitive: Reference)
    requires Assess(es, v, data, correct, intuitive).raised == None
    ensures var a := Assess(es, v, data, correct, intuitive).embedded;
      && |a| == |Others(es, v)| + 2
      && a[..|a| - 2] == Others(es, v)
      && a[|a| - 2].varName == CorrectName(v) && a[|a| - 2].dataRows == -1
      && a[|a| - 1].varName == IntuitiveName(v) && a[|a| - 1].dataRows == -1
      && (forall k :: 0 <= k < |a| && a[k].varName == CorrectName(v) ==> k == |a| - 2)
      && (forall k :: 0 <= k < |a| && a[k].varName == IntuitiveName(v) ==> k == |a| - 1)
  {
    FlagNamesDiffer(v);
    var a := Assess(es, v, data, correct, intuitive).embedded;
    var kept := Others(es, v);
    forall k | 0 <= k < |kept|
      ensures a[k] == kept[k] && !IsAssessmentOf(a[k], v)
    {
    }
  }

  /**
   * The scoring rule: an absent or empty answer records `None` for both
   * flags; any other answer is converted to each reference's type, and
   * each flag is 1 exactly when the converted answer equals that reference,
   * 0 otherwise, independently of the other flag.
   */
  lemma AssessScores(es: seq<Embedded>, v: string, data: Data, correct: Reference, intuitive: Reference)
    requires Assess(es, v, data, correct, intuitive).raised == None
    ensures var a := Assess(es, v, data, correct, intuitive).embedded;
      && |a| >= 2
      && (IsMissing(data) ==> a[|a| - 2].value == None && a[|a| - 1].value == None)
      && (!IsMissing(data) ==>
            && Coerce(correct, data).Success? && Coerce(intuitive, data).Success?
            && a[|a| - 2].value == Some(if Coerce(correct, data).value == correct then 1 else 0)
            && a[|a| - 1].value == Some(if Coerce(intuitive, data).value == intuitive then 1 else 0))
  {
  }

  /**
   * The error path: an assessment raises exactly when the answer is present
   * and cannot be converted to one of the reference types; the conversion
   * for the correct answer is tried first. By then the earlier flags have
   * been removed, and nothing is appended.
   */
  lemma AssessRaises(es: seq<Embedded>, v: string, data: Data, correct: Reference, intuitive: Reference)
    ensures var a := Assess(es, v, data, correct, intuitive);
      && (a.raised.Some? <==> !IsMissing(data) && (Coerce(correct, data).Failure? || Coerce(intuitive, data).Failure?))
      && (a.raised.Some? ==>
            && a.embedded == Others(es, v)
            && a.raised.value == (if Coerce(correct, data).Failure? then Coerce(correct, data) else Coerce(intuitive, data)).error)
  {
  }

  /** Every entry that is not an assessment of the question is left as it was, in its order. */
  lemma AssessKeepsOthers(es: seq<Embedded>, v: string, data: Data, correct: Reference, intuitive: Reference)
    ensures Others(Assess(es, v, data, correct, intuitive).embedded, v) == Others(es, v)
  {
    var a := Assess(es, v, data, correct, intuitive);
    OthersIdempotent(es, v);
    if a.raised == None {
      var flags := [Embedded(CorrectName(v), Flag(correct, data).value, -1), Embedded(IntuitiveName(v), Flag(intuitive, data).value, -1)];
      OthersAppend(Others(es, v), flags, v);
      assert IsAssessmentOf(flags[0], v) && IsAssessmentOf(flags[1], v);
      assert Others(flags[1..], v) == [] by { assert flags[1..][1..] == []; }
      assert Others(flags, v) == [];
    }
  }

  /**
   * Re-submission: assessing the same answer again leaves the page exactly
   * as assessing it once did, with no stale flags accumulating.
   */
  lemma AssessIdempotent(es: seq<Embedded>, v: string, data: Data, correct: Reference, intuitive: Reference)
    ensures var once := Assess(es, v, data, correct, intuitive);
      Assess(once.embedded, v, data, correct, intuitive) == once
  {
    AssessKeepsOthers(es, v, data, correct, intuitive);
  }

  // ---------------------------------------------------------------------------
  // Properties of the scores

  /** Conversion depends only on the type of the reference, not on its value. */
  lemma CoerceByKind(a: Reference, b: Reference, data: Data)
    requires SameKind(a, b)
    ensures Coerce(a, data) == Coerce(b, data)
  {
  }

  /** When the two references differ and have one type, no answer scores 1 on both flags. */
  lemma NeverBothFlags(correct: Reference, intuitive: Reference, data: Data)
    requires SameKind(correct, intuitive) && correct != intuitive
    ensures !(Flag(correct, data) == Success(Some(1)) && Flag(intuitive, data) == Success(Some(1)))
  {
    CoerceByKind(correct, intuitive, data);
  }

  /**
   * The flags are computed separately, not as alternatives: when an item's
   * two references are equal, the two flags recorded are equal too, both 1
   * on a match.
   */
  lemma EqualReferencesAgree(es: seq<Embedded>, v: string, data: Data, reference: Reference)
    requires Assess(es, v, data, reference, reference).raised == None
    ensures var a := Assess(es, v, data, reference, reference).embedded;
      |a| >= 2 && a[|a| - 2].value == a[|a| - 1].value
  {
  }

  /** Text that `float` reads is scored by comparing the number it denotes with the reference. */
  lemma NumberTextScores(x: real, s: string, y: real)
    requires ParseFloat(s) == Some(y)
    ensures Flag(Num(x), Text(s)) == Success(Some(if y == x then 1 else 0))
  {
    assert Coerce(Num(x), Text(s)) == Success(Num(y));
  }

  /** Text that `int` reads is scored by comparing the integer it denotes with the reference. */
  lemma IntegerTextScores(i: int, s: string, n: int)
    requires ParseInt(s) == Some(n)
    ensures Flag(Int(i), Text(s)) == Success(Some(if n == i then 1 else 0))
  {
    assert Coerce(Int(i), Text(s)) == Success(Int(n));
  }

  /** A numeric answer typed as the digits of `n` is scored by comparing `n` with the reference. */
  lemma NumericTextScores(x: real, n: int)
    ensures Flag(Num(x), Text(IntToString(n))) == Success(Some(if n as real == x then 1 else 0))
    ensures Flag(Num(x), Whole(n)) == Success(Some(if n as real == x then 1 else 0))
  {
    ParseFloatOfIntToString(n);
    NumberTextScores(x, IntToString(n), n as real);
  }

  /** An integer answer, typed or chosen, is scored by comparing it with an integer reference. */
  lemma IntegerAnswerScores(i: int, n: int)
    ensures Flag(Int(i), Text(IntToString(n))) == Success(Some(if n == i then 1 else 0))
    ensures Flag(Int(i), Whole(n)) == Success(Some(if n == i then 1 else 0))
  {
    ParseIntOfIntToString(n);
    IntegerTextScores(i, IntToString(n), n);
    assert Coerce(Int(i), Whole(n)) == Success(Int(n));
  }

  /** A zero answer is an answer: it is scored, not recorded as missing. */
  lemma ZeroIsScored(reference: Reference)
    ensures Flag(reference, Whole(0)).Success? && Flag(reference, Whole(0)).value.Some?
    ensures Flag(reference, Text("0")).Success? && Flag(reference, Text("0")).value.Some?
  {
    ParseIntOfIntToString(0);
    ParseFloatOfIntToString(0);
    assert IntToString(0) == "0";
  }
}
