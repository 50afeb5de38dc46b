/**
 * The item registry `crt_items`, the decorator `register` that fills it,
 * and `crt`, which builds the questions (or pages) for a list of item names.
 */
module Registry {
  import opened Wrappers
  import opened Coercion
  import opened Hemlock
  import opened Shuffle
  import Items

  /**
   * A function passed to `register`, described by the question it returns:
   * its Python name and the fields of the fresh question it builds.
   */
  datatype Template = Template(
    name: string,
    varName: string,
    widget: Widget,
    validate: seq<Validator>,
    submit: seq<SubmitHook>,
    dataRows: int)

  /** `gen_question`: a registered function together with the reference answers bound to it. */
  datatype Generator = Generator(func: Template, correct: Reference, intuitive: Reference)

  /** An element of the list `crt` returns: a question, or (with `page=True`) a page. */
  datatype Element = QuestionItem(question: Question) | PageItem(page: Page)

  /** The key `register` stores under: the given key, or the function's name when the key is missing or empty. */
  function RegistryKey(key: Option<string>, funcName: string): (r: string)
    ensures key.Some? && key.value != "" ==> r == key.value
    ensures key.None? || key.value == "" ==> r == funcName
    ensures r == "" ==> funcName == ""
  {
    if key.Some? && key.value != "" then key.value else funcName
  }

  /** The names `crt` builds when it is given none. */
  const DefaultItems: seq<string> := ["bat_ball", "widgets", "lily_pads"]

  /** The names `crt` looks up: the names it is given, or the three default items when it is given none, so never none. */
  function Selection(names: seq<string>): (r: seq<string>)
    ensures r != []
    ensures names != [] ==> r == names
    ensures names == [] ==> r == DefaultItems
  {
    if names == [] then DefaultItems else names
  }

  /**
   * `crt_items[name]` for each name in order: the generators, or the
   * `KeyError` of the first name that is not registered.
   */
  function Lookup(items: map<string, Generator>, names: seq<string>): (r: Result<seq<Generator>, Exception>)
    ensures r.Success? <==> forall k :: 0 <= k < |names| ==> names[k] in items
    ensures r.Success? ==> |r.value| == |names| && forall k :: 0 <= k < |names| ==> r.value[k] == items[names[k]]
    ensures r.Failure? ==>
      exists k :: 0 <= k < |names| && names[k] !in items && r.error == KeyError(names[k]) &&
        forall j :: 0 <= j < k ==> names[j] in items
  {
    if names == [] then Success([])
    else if names[0] !in items then Failure(KeyError(names[0]))
    else
      match Lookup(items, names[1..])
      case Failure(e) => Failure(e)
      case Success(rest) => Success([items[names[0]]] + rest)
  }

  /**
   * Question `q` is what generator `g` builds: the function's question with
   * `data_rows = -1` and the assessor for the generator's reference pair
   * appended to its submit functions; with `require`, one `V.require()`
   * appended to its validators.
   */
  ghost predicate Built(q: Question, g: Generator, require: bool)
    reads q
  {
    && q.varName == g.func.varName
    && q.widget == g.func.widget
    && q.data == Null
    && q.dataRows == -1
    && q.validate == g.func.validate + (if require then [Require] else [])
    && q.submit == g.func.submit + [Assessor(g.correct, g.intuitive)]
  }

  /**
   * Element `e` presents question `q`: it is the question itself, or the
   * page that holds `q` alone, is named after its variable and times it
   * under `<var>Time`.
   */
  ghost predicate Presents(e: Element, q: Question, page: bool)
    reads q, if e.PageItem? then {e.page} else {}
  {
    if page then
      && e.PageItem?
      && e.page.questions == [q]
      && e.page.name == Some(q.varName)
      && e.page.timer == Some(Timer(q.varName + "Time", -1))
      && q.page == e.page
    else
      e == QuestionItem(q) && q.page == null
  }

  /** `gen_question()`: calls the registered function, then marks and hooks its question. */
  method Generate(g: Generator) returns (q: Question)
    ensures fresh(q) && Built(q, g, false) && q.page == null
  {
    var f := g.func;
    q := new Question(f.varName, f.widget, f.validate, f.submit, f.dataRows);
    q.dataRows := -1;
    q.submit := q.submit + [Assessor(g.correct, g.intuitive)];
  }

  // ---------------------------------------------------------------------------
  // The built-in registrations

  /**
   * The function behind a built-in item: registered without a key, it is
   * stored under the item's key; it builds the item's widget under the
   * item's variable, with no validators or submit functions of its own.
   */
  function BuiltinTemplate(item: Items.Item): (r: Template)
    ensures RegistryKey(None, r.name) == item.key
    ensures r.varName == item.varName && r.widget == item.widget
    ensures r.validate == [] && r.submit == []
  {
    Template(item.key, item.varName, item.widget, [], [], 1)
  }

  function BuiltinGenerator(item: Items.Item): Generator {
    Generator(BuiltinTemplate(item), item.correct, item.intuitive)
  }

  /** The registry after registering `items` one after another, each under its function's name: every item's key is in it. */
  function Registered(items: seq<Items.Item>): (r: map<string, Generator>)
    ensures forall j :: 0 <= j < |items| ==> items[j].key in r
  {
    if items == [] then map[]
    else
      var last := items[|items| - 1];
      Registered(items[..|items| - 1])[RegistryKey(None, BuiltinTemplate(last).name) := BuiltinGenerator(last)]
  }

  /** The last registration under a key is the one the registry keeps. */
  lemma {:induction false} LastRegistrationWins(items: seq<Items.Item>, j: nat)
    requires j < |items|
    requires forall i :: j < i < |items| ==> items[i].key != items[j].key
    ensures items[j].key in Registered(items)
    ensures Registered(items)[items[j].key] == BuiltinGenerator(items[j])
  {
    var init := items[..|items| - 1];
    if j < |items| - 1 {
      forall i | j < i < |init| ensures init[i].key != init[j].key {
        assert init[i] == items[i];
      }
      LastRegistrationWins(init, j);
    }
  }

  /** Every key in the registry was registered by some item, and holds that item's generator. */
  lemma {:induction false} RegisteredFromItems(items: seq<Items.Item>, key: string)
    requires key in Registered(items)
    ensures exists j :: 0 <= j < |items| && items[j].key == key && Registered(items)[key] == BuiltinGenerator(items[j])
  {
    var last := items[|items| - 1];
    if key != last.key {
      var init := items[..|items| - 1];
      RegisteredFromItems(init, key);
      var j :| 0 <= j < |init| && init[j].key == key && Registered(init)[key] == BuiltinGenerator(init[j]);
      assert items[j] == init[j];
    } else {
      assert items[|items| - 1].key == key;
    }
  }

  /** After the module is imported, each built-in key holds its own item's generator. */
  lemma BuiltinLookup(j: nat)
    requires j < |Items.Builtins|
    ensures Items.Builtins[j].key in Registered(Items.Builtins)
    ensures Registered(Items.Builtins)[Items.Builtins[j].key] == BuiltinGenerator(Items.Builtins[j])
  {
    Items.BuiltinKeysDistinct();
    LastRegistrationWins(Items.Builtins, j);
  }

  /** `crt()` with no names, on the built-in registry, finds bat-and-ball, widgets and lily pads. */
  lemma DefaultSelectionResolves()
    ensures Lookup(Registered(Items.Builtins), Selection([])) ==
      Success([BuiltinGenerator(Items.Builtins[0]), BuiltinGenerator(Items.Builtins[1]), BuiltinGenerator(Items.Builtins[2])])
  {
    var m := Registered(Items.Builtins);
    var g0, g1, g2 := BuiltinGenerator(Items.Builtins[0]), BuiltinGenerator(Items.Builtins[1]), BuiltinGenerator(Items.Builtins[2]);
    BuiltinLookup(0);
    BuiltinLookup(1);
    BuiltinLookup(2);
    assert Items.Builtins[0].key == "bat_ball" && Items.Builtins[1].key == "widgets" && Items.Builtins[2].key == "lily_pads";
    assert "bat_ball" in m && m["bat_ball"] == g0;
    assert "widgets" in m && m["widgets"] == g1;
    assert "lily_pads" in m && m["lily_pads"] == g2;
    var r := Lookup(m, DefaultItems);
    assert r.Success? && |r.value| == 3;
    assert r.value == [g0, g1, g2];
  }

  /** Every generator of the built-in registry binds two different references of one type. */
  lemma BuiltinGeneratorsDistinguish(key: string)
    requires key in Registered(Items.Builtins)
    ensures var g := Registered(Items.Builtins)[key];
      SameKind(g.correct, g.intuitive) && g.correct != g.intuitive
  {
    RegisteredFromItems(Items.Builtins, key);
    Items.BuiltinReferencesDiffer();
  }

  // ---------------------------------------------------------------------------
  // The steps of crt

  /**
   * Calls the generator registered under each name, in order, each building
   * a question of its own; stops with a `KeyError` at the first name that is
   * not registered.
   */
  method GenerateAll(items: map<string, Generator>, names: seq<string>) returns (r: Result<seq<Question>, Exception>)
    ensures r.Failure? <==> Lookup(items, names).Failure?
    ensures r.Failure? ==> r.error == Lookup(items, names).error
    ensures r.Success? ==>
      && |r.value| == |names|
      && (forall k :: 0 <= k < |names| ==>
            fresh(r.value[k]) && Built(r.value[k], Lookup(items, names).value[k], false) && r.value[k].page == null)
      && (forall j, k :: 0 <= j < k < |names| ==> r.value[j] != r.value[k])
  {
    var qs: seq<Question> := [];
    var i := 0;
    while i < |names|
      invariant 0 <= i <= |names| && |qs| == i
      invariant forall k :: 0 <= k < i ==> names[k] in items
      invariant forall k :: 0 <= k < i ==>
        fresh(qs[k]) && Built(qs[k], items[names[k]], false) && qs[k].page == null
      invariant forall j, k :: 0 <= j < k < i ==> qs[j] != qs[k]
    {
      if names[i] !in items {
        return Failure(KeyError(names[i]));
      }
      var q := Generate(items[names[i]]);
      qs := qs + [q];
      i := i + 1;
    }
    r := Success(qs);
  }

  /** Appends one `require` validator to each of the questions. */
  method RequireEach(qs: seq<Question>, ghost gens: seq<Generator>)
    requires |gens| == |qs|
    requires forall j, k :: 0 <= j < k < |qs| ==> qs[j] != qs[k]
    requires forall k :: 0 <= k < |qs| ==> Built(qs[k], gens[k], false) && qs[k].page == null
    modifies set q | q in qs
    ensures forall k :: 0 <= k < |qs| ==> Built(qs[k], gens[k], true) && qs[k].page == null
  {
    var k := 0;
    while k < |qs|
      invariant 0 <= k <= |qs|
      invariant forall j :: 0 <= j < |qs| ==> Built(qs[j], gens[j], j < k) && qs[j].page == null
    {
      qs[k].validate := qs[k].validate + [Require];
      k := k + 1;
    }
  }

  /**
   * Wraps each question in a page of its own, named after the question's
   * variable and timed under that variable followed by `Time`.
   */
  method WrapEach(qs: seq<Question>, ghost gens: seq<Generator>, ghost require: bool) returns (pages: seq<Element>)
    requires |gens| == |qs|
    requires forall j, k :: 0 <= j < k < |qs| ==> qs[j] != qs[k]
    requires forall k :: 0 <= k < |qs| ==> Built(qs[k], gens[k], require) && qs[k].page == null
    modifies set q | q in qs
    ensures |pages| == |qs|
    ensures forall k :: 0 <= k < |qs| ==>
      Built(qs[k], gens[k], require) && Presents(pages[k], qs[k], true) && fresh(pages[k].page)
  {
    pages := [];
    var k := 0;
    while k < |qs|
      invariant 0 <= k <= |qs| && |pages| == k
      invariant forall j :: 0 <= j < |qs| ==> Built(qs[j], gens[j], require)
      invariant forall j :: 0 <= j < k ==> Presents(pages[j], qs[j], true) && fresh(pages[j].page)
      invariant forall j :: k <= j < |qs| ==> qs[j].page == null
    {
      var q := qs[k];
      var p := new Page(q, q.varName, Timer(q.varName + "Time", -1));
      pages := pages + [PageItem(p)];
      k := k + 1;
    }
  }

  // ---------------------------------------------------------------------------
  // The registry object

  /** The module-level dictionary `crt_items`, with the functions that read and write it. */
  class CrtItems {
    var items: map<string, Generator>

    /** An empty registry, as the module starts with (line 63). */
    constructor ()
      ensures items == map[]
    {
      items := map[];
    }

    /**
     * The registry once the module has been imported: each item of `table`
     * registered in file order by its decorator. Importing the module is
     * `Loaded(Items.Builtins)`.
     */
    constructor Loaded(table: seq<Items.Item>)
      ensures items == Registered(table)
    {
      items := map[];
      new;
      var i := 0;
      while i < |table|
        invariant 0 <= i <= |table|
        invariant items == Registered(table[..i])
      {
        var item := table[i];
        var g := Register(item.correct, item.intuitive, None, BuiltinTemplate(item));
        assert table[..i + 1][..i] == table[..i];
        i := i + 1;
      }
      assert table[..i] == table;
    }

    /**
     * `register(correct, intuitive, key)(func)`: stores the wrapped function
     * under `key`, or under the function's name when `key` is missing or
     * empty, replacing whatever was stored there; returns the wrapper.
     */
    method Register(correct: Reference, intuitive: Reference, key: Option<string>, func: Template) returns (g: Generator)
      modifies this
      ensures g == Generator(func, correct, intuitive)
      ensures items == old(items)[RegistryKey(key, func.name) := g]
    {
      g := Generator(func, correct, intuitive);
      items := items[RegistryKey(key, func.name) := g];
    }

    /**
     * `crt`: builds one question for each name selected, in order, makes
     * each required when `require` is set, wraps each in a page of its own
     * when `page` is set, and shuffles the list when `shuffle` is set. The
     * registry is only read. `questions` and `built` are the questions
     * built and the list before shuffling; `draws` are the indices the
     * random source yields to `random.shuffle`.
     */
    method Crt(names: seq<string>, page: bool, require: bool, shuffle: bool, draws: seq<nat>)
      returns (r: Result<seq<Element>, Exception>, ghost questions: seq<Question>, ghost built: seq<Element>)
      requires shuffle ==> |draws| == |Selection(names)| && ValidDraws(draws)
      ensures r.Failure? <==> Lookup(items, Selection(names)).Failure?
      ensures r.Failure? ==> r.error == Lookup(items, Selection(names)).error
      ensures r.Success? ==>
        var gens := Lookup(items, Selection(names)).value;
        && |questions| == |gens| && |built| == |gens|
        && (forall k :: 0 <= k < |gens| ==>
              && fresh(questions[k])
              && Built(questions[k], gens[k], require)
              && Presents(built[k], questions[k], page)
              && (page ==> fresh(built[k].page)))
        && (forall j, k :: 0 <= j < k < |questions| ==> questions[j] != questions[k])
        && r.value == (if shuffle then Shuffled(built, draws) else built)
        && multiset(r.value) == multiset(built)
      ensures r.Success? && shuffle && IdentityDraws(draws) ==> r.value == built
    {
      var generated := GenerateAll(items, Selection(names));
      if generated.Failure? {
        r, questions, built := Failure(generated.error), [], [];
        return;
      }
      var qs := generated.value;
      ghost var gens := Lookup(items, Selection(names)).value;
      if require {
        RequireEach(qs, gens);
      }
      var elements: seq<Element>;
      if page {
        elements := WrapEach(qs, gens, require);
      } else {
        elements := seq(|qs|, j requires 0 <= j < |qs| => QuestionItem(qs[j]));
      }
      questions, built := qs, elements;
      if shuffle {
        elements := Shuffled(elements, draws);
      }
      r := Success(elements);
    }

    /**
     * Registering a function and then asking `crt` for its key builds one
     * element: the function's question, marked and hooked with the
     * references given to `register`.
     */
    method RegisterThenCrt(correct: Reference, intuitive: Reference, key: Option<string>, func: Template, page: bool, require: bool)
      returns (r: Result<seq<Element>, Exception>, ghost question: Question)
      modifies this
      ensures r.Success? && |r.value| == 1
      ensures fresh(question) && Built(question, Generator(func, correct, intuitive), require)
      ensures Presents(r.value[0], question, page)
    {
      var g := Register(correct, intuitive, key, func);
      var name := RegistryKey(key, func.name);
      assert Selection([name]) == [name];
      assert name in items && items[name] == g;
      assert Lookup(items, [name]).value == [g];
      ghost var questions, built;
      r, questions, built := Crt([name], page, require, false, []);
      question := questions[0];
    }
  }
}
