/**
 * The objects of the hemlock survey framework that the CRT core reads and
 * writes, reduced to the attributes it touches. Their constructors stand for
 * the framework's own (`Input`, `Binary`, `Check`, `Page`, `Embedded`,
 * `V.require`, `S`), which are not part of this model.
 */
module Hemlock {
  import opened Wrappers
  import opened Coercion

  /** One entry of a page's embedded data: `Embedded(var, data, data_rows=...)`. */
  datatype Embedded = Embedded(varName: string, value: Option<int>, dataRows: int)

  /** A validator in a question's `validate` list; `Require` is `V.require()`. */
  datatype Validator = Require | OtherValidator(name: string)

  /**
   * A function in a question's `submit` list. `Assessor(c, i)` is
   * `S(_assess_response, c, i)`: the assessor bound to one reference pair.
   */
  datatype SubmitHook = Assessor(correct: Reference, intuitive: Reference) | OtherHook(name: string)

  /** The kind of widget an item builds. */
  datatype Widget = InputWidget | BinaryWidget | CheckWidget

  /** A page timer `(var, data_rows)`. */
  datatype Timer = Timer(varName: string, dataRows: int)

  /** A question on a survey page. */
  class Question {
    const varName: string
    const widget: Widget
    var data: Data
    var validate: seq<Validator>
    var submit: seq<SubmitHook>
    var dataRows: int
    var page: Page?

    /** A fresh, unanswered question that is not on any page yet. */
    constructor (varName: string, widget: Widget, validate: seq<Validator>, submit: seq<SubmitHook>, dataRows: int)
      ensures this.varName == varName && this.widget == widget
      ensures this.validate == validate && this.submit == submit && this.dataRows == dataRows
      ensures data == Null && page == null
    {
      this.varName, this.widget := varName, widget;
      this.validate, this.submit, this.dataRows := validate, submit, dataRows;
      data, page := Null, null;
    }
  }

  /** A survey page, with its questions and its embedded data. */
  class Page {
    var name: Option<string>
    var timer: Option<Timer>
    var questions: seq<Question>
    var embedded: seq<Embedded>

    /** `Page(question, name=name, timer=timer)`: a page holding one question, which now belongs to it. */
    constructor (question: Question, name: string, timer: Timer)
      modifies question
      ensures this.name == Some(name) && this.timer == Some(timer)
      ensures questions == [question] && embedded == []
      ensures question.page == this
      ensures question.data == old(question.data) && question.validate == old(question.validate)
      ensures question.submit == old(question.submit) && question.dataRows == old(question.dataRows)
    {
      this.name, this.timer := Some(name), Some(timer);
      questions, embedded := [question], [];
      new;
      question.page := this;
    }
  }
}
