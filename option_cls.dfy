/** The la:optionCls processor (attr/OptionClsAttrProcessor.java): turns an option into
    a loop over a classification's elements, valued by each element's code, labelled by
    its alias, and selected when it equals the property of the enclosing select. */
module OptionCls {

  import opened Wrappers
  import opened JavaText
  import opened Template
  import ForEach
  import Property

  const PRECEDENCE: int := 200
  /** The only element the processor matches. */
  const ELEMENT_TARGET: string := "option"
  const DEFAULT_ITERATION_VALUE: string := "cdef"

  datatype OptionClsError =
    | IterVarNameEmpty    // Validate.notEmpty in the IterationSpec constructor
    | ParentNotElement    // the cast (Element) getParent() above the root element

  datatype OptionSpec = OptionSpec(iterVarName: string, statusVarName: string, classificationName: string)

  predicate AppliesTo(tag: string)
  {
    tag == ELEMENT_TARGET
  }

  /** getIterationSpec over the attribute's raw value; eval stands for the host's
      evaluation of a standard expression to its string form. A value without ':' is
      the classification expression alone, iterated as cdef with status cdefStat;
      otherwise the trimmed text after the first ':' is the expression and the trimmed
      text before it names the iteration variable, optionally followed by a comma and
      the status variable. The IterationSpec constructor refuses a variable that is
      empty or all whitespace (Validate.notEmpty). */
  function IterationSpecOf(value: string, eval: string -> string): (r: Result<OptionSpec, OptionClsError>)
    ensures ':' !in value ==>
              r == Success(OptionSpec(DEFAULT_ITERATION_VALUE, DEFAULT_ITERATION_VALUE + ForEach.DEFAULT_STATUS_VAR_SUFFIX, eval(value)))
    ensures ':' in value && r.Success? ==>
              r.value.classificationName == eval(Trim(value[IndexOf(value, ':') + 1..]))
    ensures ':' in value ==>
              var names := DeclaredVars(Trim(value[..IndexOf(value, ':')]));
              && (r.Success? <==> !IsEmptyOrWhitespace(Some(names.0)))
              && (r.Success? ==> r.value.iterVarName == names.0 && r.value.statusVarName == names.1)
    ensures r.Failure? ==> r.error == IterVarNameEmpty
    ensures r.Success? ==> r.value.iterVarName != [] && Trimmed(r.value.iterVarName)
                           && ',' !in r.value.iterVarName && ':' !in r.value.iterVarName
  {
    var separateIndex := IndexOf(value, ':');
    if separateIndex < 0 then
      Success(OptionSpec(DEFAULT_ITERATION_VALUE, DEFAULT_ITERATION_VALUE + ForEach.DEFAULT_STATUS_VAR_SUFFIX, eval(value)))
    else
      var classification := Trim(value[separateIndex + 1..]);
      var declared := Trim(value[..separateIndex]);
      TrimKeepsOut(value[..separateIndex], ':');
      var (iterVarName, statusVarName) := DeclaredVars(declared);
      if IsEmptyOrWhitespace(Some(iterVarName)) then Failure(IterVarNameEmpty)
      else Success(OptionSpec(iterVarName, statusVarName, eval(classification)))
  }

  /** The iteration and status variable names in a trimmed declaration: split at its
      first comma and trimmed, or the whole declaration and its default status name. */
  function DeclaredVars(declared: string): (r: (string, string))
    ensures ',' !in r.0 && (':' !in declared ==> ':' !in r.0)
    ensures ',' in declared || Trimmed(declared) ==> Trimmed(r.0)
    ensures ',' !in declared ==> r == (declared, declared + ForEach.DEFAULT_STATUS_VAR_SUFFIX)
    ensures ',' in declared ==>
              var i := IndexOf(declared, ',');
              && r.0 == Trim(declared[..i]) && r.1 == Trim(declared[i + 1..])
              && ',' !in declared[..i]
  {
    var statusSeparate := IndexOf(declared, ',');
    if statusSeparate < 0 then (declared, declared + ForEach.DEFAULT_STATUS_VAR_SUFFIX)
    else
      var before := declared[..statusSeparate];
      TrimKeepsOut(before, ',');
      assert ':' !in declared ==> ':' !in Trim(before) by {
        if ':' !in declared {
          TrimKeepsOut(before, ':');
        }
      }
      (Trim(before), Trim(declared[statusSeparate + 1..]))
  }

  /** getParentSelectPropertyName: the select property recorded on the element or the
      nearest element above it, stopping with none at a select that has none; above
      the root element the cast to Element fails. */
  function ParentSelectPropertyName(element: Node): (r: Result<Option<string>, OptionClsError>)
    requires element.Valid()
    reads element, element.Ancestors
    ensures Property.SELECT_PROPERTY_NAME in element.properties ==>
              r == Success(Some(element.properties[Property.SELECT_PROPERTY_NAME]))
    ensures r.Failure? <==> forall a :: a in Lineage(element) ==>
                              a.tag != "select" && Property.SELECT_PROPERTY_NAME !in a.properties
    ensures r.Success? && r.value.Some? ==>
              exists a :: a in Lineage(element) && Property.SELECT_PROPERTY_NAME in a.properties
                          && a.properties[Property.SELECT_PROPERTY_NAME] == r.value.value
    ensures r == Success(None) ==>
              exists a :: a in Lineage(element) && a.tag == "select" && Property.SELECT_PROPERTY_NAME !in a.properties
    decreases element.depth
  {
    if Property.SELECT_PROPERTY_NAME in element.properties then
      Success(Some(element.properties[Property.SELECT_PROPERTY_NAME]))
    else if element.tag == "select" then Success(None)
    else if element.parent == null then Failure(ParentNotElement)
    else
      assert Lineage(element) == Lineage(element.parent) + {element};
      ParentSelectPropertyName(element.parent)
  }

  /** The nearest node of the lineage that carries the select property or is a select
      decides the search: its answer is the result, and no node below it stops the search. */
  lemma ParentSelectStopsAtNearest(element: Node)
    requires element.Valid()
    ensures var r := ParentSelectPropertyName(element);
            r.Success? ==>
              exists a :: && a in Lineage(element) && StopsSearch(a) && r == SearchResult(a)
                          && forall b :: b in Lineage(element) && b.depth > a.depth ==> !StopsSearch(b)
    decreases element.depth
  {
    AncestorsShallower(element);
    if !StopsSearch(element) && element.parent != null {
      assert Lineage(element) == Lineage(element.parent) + {element};
      ParentSelectStopsAtNearest(element.parent);
    }
  }

  /** A node where the upward search stops: one carrying the select property, or a select. */
  predicate StopsSearch(a: Node)
    reads a
  {
    Property.SELECT_PROPERTY_NAME in a.properties || a.tag == "select"
  }

  /** What the search answers at the node where it stops. */
  function SearchResult(a: Node): Result<Option<string>, OptionClsError>
    reads a
  {
    if Property.SELECT_PROPERTY_NAME in a.properties then Success(Some(a.properties[Property.SELECT_PROPERTY_NAME]))
    else Success(None)
  }

  /** The directives the processor generates: always the loop over the classification;
      the code as value and the alias as text unless written; the selection test
      against the select property unless written or no property was found. */
  predicate OptionTable(values: map<string, string>, attributes: seq<Attribute>, spec: OptionSpec,
                        selectPropertyName: Option<string>)
  {
    && values.Keys <= {"th:each", "th:value", "th:text", "th:selected"}
    && "th:each" in values
    && values["th:each"] == spec.iterVarName + ", " + spec.statusVarName
                            + " : ${#cls.listAll('" + spec.classificationName + "')}"
    && ("th:value" in values <==> !HasAttribute(attributes, "th:value"))
    && ("th:value" in values ==> values["th:value"] == "${#cls.code(" + spec.iterVarName + ")}")
    && ("th:text" in values <==> !HasAttribute(attributes, "th:text"))
    && ("th:text" in values ==> values["th:text"] == "${#cls.alias(" + spec.iterVarName + ")}")
    && ("th:selected" in values <==> !HasAttribute(attributes, "th:selected") && selectPropertyName.Some?)
    && ("th:selected" in values ==>
          values["th:selected"] == "${" + spec.iterVarName + "} == ${" + selectPropertyName.value + "}")
  }

  /** getModifiedAttributeValues: the spec first, then the directives. */
  method ModifiedAttributeValues(element: Node, optionClsValue: string, eval: string -> string)
    returns (r: Result<map<string, string>, OptionClsError>)
    requires element.Valid()
    ensures var spec := IterationSpecOf(optionClsValue, eval);
            && (spec.Failure? ==> r == Failure(spec.error))
            && (spec.Success? ==>
                  var selected := if HasAttribute(element.attributes, "th:selected") then Success(None)
                                  else ParentSelectPropertyName(element);
                  && (r.Failure? <==> selected.Failure?)
                  && (r.Success? ==> OptionTable(r.value, element.attributes, spec.value, selected.value)))
  {
    var spec := IterationSpecOf(optionClsValue, eval);
    if spec.Failure? {
      return Failure(spec.error);
    }
    r := DirectiveValues(element, spec.value);
  }

  /** The directive half of getModifiedAttributeValues for a parsed spec; the upward
      search runs only when the author wrote no th:selected. */
  method DirectiveValues(element: Node, spec: OptionSpec) returns (r: Result<map<string, string>, OptionClsError>)
    requires element.Valid()
    ensures var selected := if HasAttribute(element.attributes, "th:selected") then Success(None)
                            else ParentSelectPropertyName(element);
            && (r.Failure? <==> selected.Failure?)
            && (r.Success? ==> OptionTable(r.value, element.attributes, spec, selected.value))
  {
    var iterVarName := spec.iterVarName;
    var values := map["th:each" := iterVarName + ", " + spec.statusVarName
                                   + " : ${#cls.listAll('" + spec.classificationName + "')}"];
    if !HasAttribute(element.attributes, "th:value") {
      values := values["th:value" := "${#cls.code(" + iterVarName + ")}"];
    }
    if !HasAttribute(element.attributes, "th:text") {
      values := values["th:text" := "${#cls.alias(" + iterVarName + ")}"];
    }
    if !HasAttribute(element.attributes, "th:selected") {
      var selectPropertyName := ParentSelectPropertyName(element);
      if selectPropertyName.Failure? {
        return Failure(selectPropertyName.error);
      }
      if selectPropertyName.value.Some? {
        values := values["th:selected" := "${" + iterVarName + "} == ${" + selectPropertyName.value.value + "}"];
      }
    }
    r := Success(values);
  }

  // ---------------------------------------------------------------------------
  // Reading the attribute value back.

  /** `<iter> : <expression>`: iter with its default status variable. */
  lemma ParseWithoutStatus(a: string, iter: string, b: string, rhs: string, eval: string -> string)
    requires Blank(a) && IsWord(iter) && Blank(b)
    ensures IterationSpecOf((a + iter + b) + ":" + rhs, eval)
            == Success(OptionSpec(iter, iter + ForEach.DEFAULT_STATUS_VAR_SUFFIX, eval(Trim(rhs))))
  {
    var left := a + iter + b;
    WordIsTrimmed(iter);
    WordNotBlank(iter);
    TrimPadded(a, iter, b);
    assert ':' !in left && ',' !in left;
    CutAtFirst(left, ':', rhs);
    assert left + ":" + rhs == left + [':'] + rhs;
  }

  /** `<iter>,<stat> : <expression>` with blanks before and after the comma: iter and
      stat. */
  lemma ParseWithStatus(iter: string, b: string, c: string, stat: string, rhs: string, eval: string -> string)
    requires IsWord(iter) && Blank(b) && Blank(c) && IsWord(stat)
    ensures IterationSpecOf((iter + b) + "," + (c + stat) + ":" + rhs, eval)
            == Success(OptionSpec(iter, stat, eval(Trim(rhs))))
  {
    var left := (iter + b) + "," + (c + stat);
    DeclarationTrimmed(iter, b, c, stat);
    WordNotBlank(iter);
    CutAtFirst(left, ':', rhs);
    assert left + ":" + rhs == left + [':'] + rhs;
    CommaSplit(iter, b, c, stat);
  }

  /** The declaration `<iter><b>,<c><stat>` is already trimmed and has no ':'. */
  lemma DeclarationTrimmed(iter: string, b: string, c: string, stat: string)
    requires IsWord(iter) && Blank(b) && Blank(c) && IsWord(stat)
    ensures var left := (iter + b) + "," + (c + stat);
            ':' !in left && Trim(left) == left
  {
    var left := (iter + b) + "," + (c + stat);
    WordIsTrimmed(iter);
    WordIsTrimmed(stat);
    assert ':' !in b && ':' !in c;
    assert left[0] == iter[0];
    assert left[|left| - 1] == stat[|stat| - 1];
    TrimmedUnchanged(left);
  }

  /** The declaration splits at its comma into iter and stat. */
  lemma CommaSplit(iter: string, b: string, c: string, stat: string)
    requires IsWord(iter) && Blank(b) && Blank(c) && IsWord(stat)
    ensures var left := (iter + b) + "," + (c + stat);
            && IndexOf(left, ',') == |iter + b|
            && Trim(left[..|iter + b|]) == iter
            && Trim(left[|iter + b| + 1..]) == stat
  {
    WordIsTrimmed(iter);
    WordIsTrimmed(stat);
    CutAtFirst(iter + b, ',', c + stat);
    TrimPadded([], iter, b);
    assert [] + iter + b == iter + b;
    TrimPadded(c, stat, []);
    assert c + stat + [] == c + stat;
  }

  /** A blank iteration variable, with or without a status variable after it, is
      rejected. */
  lemma BlankIterVarRejected(a: string, status: string, rhs: string, eval: string -> string)
    requires Blank(a) && ':' !in status
    ensures IterationSpecOf(a + ":" + rhs, eval) == Failure(IterVarNameEmpty)
    ensures IterationSpecOf((a + "," + status) + ":" + rhs, eval) == Failure(IterVarNameEmpty)
  {
    assert ':' !in a;
    CutAtFirst(a, ':', rhs);
    assert a + ":" + rhs == a + [':'] + rhs;
    TrimPadded(a, [], []);
    assert a + [] + [] == a;
    var left := a + "," + status;
    assert ':' !in left;
    CutAtFirst(left, ':', rhs);
    assert left + ":" + rhs == left + [':'] + rhs;
    BlankBeforeComma(a, status);
  }
  /** An iteration variable of ideographic spaces survives trim but is still refused:
      it is whitespace to Validate.notEmpty. */
  lemma WhitespaceIterVarRejected(eval: string -> string)
    ensures IterationSpecOf("\U{3000} : x", eval) == Failure(IterVarNameEmpty)
  {
    IdeographicDeclaration();
    assert IsEmptyOrWhitespace(Some("\U{3000}")) by {
      assert IsWhitespace('\U{3000}');
    }
  }

  /** The declaration of "\U{3000} : x" ends at index 2 and trims to the ideographic space. */
  lemma IdeographicDeclaration()
    ensures IndexOf("\U{3000} : x", ':') == 2
    ensures Trim("\U{3000} : x"[..2]) == "\U{3000}"
  {
    var value := "\U{3000} : x";
    assert value[..2] == "\U{3000}" + " ";
    TrimPaddedRight("\U{3000}", " ");
  }


  /** After trimming `<blank>,<status>` the comma comes first, so the part before it
      trims to nothing. */
  lemma BlankBeforeComma(a: string, status: string)
    requires Blank(a)
    ensures var declared := Trim(a + "," + status);
            ',' in declared && Trim(declared[..IndexOf(declared, ',')]) == []
  {
    var rest := "," + status;
    var left := a + rest;
    assert a + "," + status == left;
    TrimOffsetAfterBlanks(a, rest);
    var declared := Trim(left);
    assert left[|a|] == ',';
    assert declared[0] == ',';
    assert IndexOf(declared, ',') == 0;
    assert Trim([]) == [] by { TrimPadded([], [], []); }
  }

  // ---------------------------------------------------------------------------
  // The documented usage.

  /** An expression without ':' is iterated as cdef with status cdefStat. */
  lemma DefaultIteration(expr: string, eval: string -> string)
    requires ':' !in expr
    ensures IterationSpecOf(expr, eval) == Success(OptionSpec("cdef", "cdefStat", eval(expr)))
  {
    assert DEFAULT_ITERATION_VALUE + ForEach.DEFAULT_STATUS_VAR_SUFFIX == "cdefStat";
  }

  /** `<select la:property="<p>"><option la:optionCls="<expr>">`, as in the documented
      `la:property="status"` and `la:optionCls="'MemberStatus'"`: once the property
      processor has run on the select, the option loops over the classification as
      cdef, shows each element's code and alias, and is selected when cdef equals the
      select's property. */
  method DocumentedSelect(propertyName: string, expr: string, eval: string -> string)
    returns (optionValues: Result<map<string, string>, OptionClsError>)
    requires ':' !in expr
    ensures optionValues.Success?
    ensures optionValues.value.Keys == {"th:each", "th:value", "th:text", "th:selected"}
    ensures optionValues.value["th:each"] == "cdef" + ", " + "cdefStat" + " : ${#cls.listAll('" + eval(expr) + "')}"
    ensures optionValues.value["th:value"] == "${#cls.code(" + "cdef" + ")}"
    ensures optionValues.value["th:text"] == "${#cls.alias(" + "cdef" + ")}"
    ensures optionValues.value["th:selected"] == "${" + "cdef" + "} == ${" + propertyName + "}"
  {
    var option := OptionInPropertySelect(propertyName, expr);
    var spec := OptionSpec("cdef", "cdefStat", eval(expr));
    DefaultIteration(expr, eval);
    assert IterationSpecOf(expr, eval) == Success(spec);
    assert !HasAttribute(option.attributes, "th:selected") by {
      assert option.attributes[0].name[0] == 'l';
    }
    optionValues := ModifiedAttributeValues(option, expr, eval);
    FullOptionTable(optionValues.value, expr, spec, propertyName);
  }

  /** An option carrying only la:optionCls, inside a select with a property, gets all
      four directives. */
  lemma FullOptionTable(values: map<string, string>, expr: string, spec: OptionSpec, propertyName: string)
    requires OptionTable(values, [Attribute("la:optionCls", expr)], spec, Some(propertyName))
    ensures values.Keys == {"th:each", "th:value", "th:text", "th:selected"}
    ensures values["th:value"] == "${#cls.code(" + spec.iterVarName + ")}"
    ensures values["th:text"] == "${#cls.alias(" + spec.iterVarName + ")}"
    ensures values["th:selected"] == "${" + spec.iterVarName + "} == ${" + propertyName + "}"
  {
    var attributes := [Attribute("la:optionCls", expr)];
    assert attributes[0].name[0] == 'l';
    assert !HasAttribute(attributes, "th:value");
    assert !HasAttribute(attributes, "th:text");
    assert !HasAttribute(attributes, "th:selected");
  }

  /** Builds the documented select, runs the property processor on it, and returns
      the option inside it, which now finds the select's property. */
  method OptionInPropertySelect(propertyName: string, expr: string) returns (option: Node)
    ensures option.Valid() && option.attributes == [Attribute("la:optionCls", expr)]
    ensures ParentSelectPropertyName(option) == Success(Some(propertyName))
  {
    var select := new Node.Root("select", [Attribute("la:property", propertyName)]);
    option := new Node.Child(select, "option", [Attribute("la:optionCls", expr)]);
    var selectValues := Property.ModifiedAttributeValues(select, propertyName);
  }
}
