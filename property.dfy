/** The la:property processor (attr/PropertyAttrProcessor.java): names a form control
    after a form property and binds its value, text and error style through generated
    th: directives, leaving alone every directive the author wrote. */
module Property {

  import opened Wrappers
  import opened JavaText
  import opened Template
  import ForEach

  const PRECEDENCE: int := 950
  /** The node property through which a select hands its property name to its options. */
  const SELECT_PROPERTY_NAME: string := "la:selectPropertyName"

  datatype PropertyError = FormPathNotString  // ClassCastException on the form path local

  /** APPEND_ERROR_STYLE_CLASS formatted with the field name. */
  function ErrorStyleClass(fieldName: string): string
  {
    "${errors.exists('" + fieldName + "')} ? 'validError'"
  }

  /** APPEND_ERROR_STYLE_CLASS_ATTRAPEND formatted with the field name. */
  function ErrorStyleAttrAppend(fieldName: string): string
  {
    "class=(${errors.exists('" + fieldName + "')} ? ' validError')"
  }

  /** The text after the first '.', or the whole name when it has none. */
  function AfterFirstDot(name: string): (r: string)
    ensures '.' !in name ==> r == name
    ensures '.' in name ==> |r| < |name| && name == name[..|name| - |r| - 1] + "." + r
                            && '.' !in name[..|name| - |r| - 1]
  {
    var i := IndexOf(name, '.');
    if i < 0 then name
    else
      assert name == name[..i] + "." + name[i + 1..];
      name[i + 1..]
  }

  /** Java's string concatenation renders a null String as "null". */
  function ConcatText(c: StringCast): string
    requires !c.NotString?
  {
    if c.IsString? then c.s else "null"
  }

  /** getPropertyFieldName: outside a la:foreach the property name itself; inside one,
      the item's form path, a dot, and the property without its leading item variable. */
  function FieldName(locals: map<string, Local>, name: string): (r: Result<string, PropertyError>)
    ensures ForEach.FORM_PROPERTY_PATH_VAR !in locals ==> r == Success(name)
    ensures r.Failure? <==> ForEach.FORM_PROPERTY_PATH_VAR in locals
                            && CastToString(locals[ForEach.FORM_PROPERTY_PATH_VAR]).NotString?
    ensures r.Success? && ForEach.FORM_PROPERTY_PATH_VAR in locals ==>
              r.value == ConcatText(CastToString(locals[ForEach.FORM_PROPERTY_PATH_VAR])) + "." + AfterFirstDot(name)
  {
    if ForEach.FORM_PROPERTY_PATH_VAR !in locals then Success(name)
    else
      var path := CastToString(locals[ForEach.FORM_PROPERTY_PATH_VAR]);
      if path.NotString? then Failure(FormPathNotString)
      else Success(ConcatText(path) + "." + AfterFirstDot(name))
  }

  /** The three directives la:property can bind a control through. */
  predicate IsNamedControl(tag: string)
  {
    tag == "input" || tag == "select" || tag == "textarea"
  }

  /** Checkboxes and radio buttons keep their own value attribute. */
  predicate IsCheckable(inputType: Option<string>)
  {
    inputType == Some("checkbox") || inputType == Some("radio")
  }

  /** The directives the property processors generate, key by key: a name for input,
      select and textarea; a value for inputs other than checkbox and radio; a text for
      everything but input and select; the error class as th:classappend, or as a
      th:attrappend class form when the author wrote a th:classappend; and never a
      directive the author already wrote. */
  ghost predicate BindingTable(values: map<string, string>, tag: string, attributes: seq<Attribute>,
                               propertyName: string, fieldName: string,
                               errorClass: string, errorAttrAppend: string)
  {
    && values.Keys <= {"th:name", "th:value", "th:text", "th:classappend", "th:attrappend"}
    && ("th:name" in values <==> IsNamedControl(tag) && !HasAttribute(attributes, "th:name"))
    && ("th:value" in values <==> tag == "input" && !HasAttribute(attributes, "th:value")
                                  && !IsCheckable(AttributeValue(attributes, "type")))
    && ("th:text" in values <==> tag != "input" && tag != "select" && !HasAttribute(attributes, "th:text"))
    && ("th:classappend" in values <==> !HasAttribute(attributes, "th:classappend"))
    && ("th:attrappend" in values <==> HasAttribute(attributes, "th:classappend")
                                       && !HasAttribute(attributes, "th:attrappend"))
    && ("th:name" in values ==> values["th:name"] == fieldName)
    && ("th:value" in values ==> values["th:value"] == "${" + propertyName + "}")
    && ("th:text" in values ==> values["th:text"] == "${" + propertyName + "}")
    && ("th:classappend" in values ==> values["th:classappend"] == errorClass)
    && ("th:attrappend" in values ==> values["th:attrappend"] == errorAttrAppend)
  }

  /** The switch on the element name and the error-style branch of getModifiedAttributeValues,
      shared by both generations of the processor, which differ only in the error-style text. */
  method BindingDirectives(tag: string, attributes: seq<Attribute>, propertyName: string, fieldName: string,
                           errorClass: string, errorAttrAppend: string)
    returns (values: map<string, string>)
    ensures BindingTable(values, tag, attributes, propertyName, fieldName, errorClass, errorAttrAppend)
  {
    var hasThName := HasAttribute(attributes, "th:name");
    var hasThText := HasAttribute(attributes, "th:text");
    var hasThValue := HasAttribute(attributes, "th:value");
    var hasThClassAppend := HasAttribute(attributes, "th:classappend");
    var hasThAttrAppend := HasAttribute(attributes, "th:attrappend");
    values := map[];
    if tag == "input" {
      if !hasThName {
        values := values["th:name" := fieldName];
      }
      if !hasThValue {
        var inputType := AttributeValue(attributes, "type");
        if !(inputType == Some("checkbox") || inputType == Some("radio")) {
          values := values["th:value" := "${" + propertyName + "}"];
        }
      }
    } else if tag == "select" {
      if !hasThName {
        values := values["th:name" := fieldName];
      }
    } else {
      if tag == "textarea" && !hasThName {
        values := values["th:name" := fieldName];
      }
      // a textarea falls through to the default branch
      if !hasThText {
        values := values["th:text" := "${" + propertyName + "}"];
      }
    }
    if !hasThClassAppend {
      values := values["th:classappend" := errorClass];
    } else if !hasThAttrAppend {
      values := values["th:attrappend" := errorAttrAppend];
    }
  }

  /** getModifiedAttributeValues: resolves the field name, generates the directives and,
      on a select, records the raw property name for the options inside it. */
  method ModifiedAttributeValues(element: Node, propertyName: string)
    returns (r: Result<map<string, string>, PropertyError>)
    requires element.Valid()
    modifies element
    ensures var fieldName := FieldName(old(VisibleLocals(element)), propertyName);
            && (r.Failure? <==> fieldName.Failure?)
            && (r.Success? ==> BindingTable(r.value, element.tag, element.attributes, propertyName, fieldName.value,
                                            ErrorStyleClass(fieldName.value), ErrorStyleAttrAppend(fieldName.value)))
    ensures element.properties == if r.Success? && element.tag == "select"
                                  then old(element.properties)[SELECT_PROPERTY_NAME := propertyName]
                                  else old(element.properties)
    ensures element.locals == old(element.locals)
  {
    var fieldName := FieldName(VisibleLocals(element), propertyName);
    if fieldName.Failure? {
      return Failure(fieldName.error);
    }
    var values := BindingDirectives(element.tag, element.attributes, propertyName, fieldName.value,
                                    ErrorStyleClass(fieldName.value), ErrorStyleAttrAppend(fieldName.value));
    if element.tag == "select" {
      element.properties := element.properties[SELECT_PROPERTY_NAME := propertyName];
    }
    r := Success(values);
  }

  // ---------------------------------------------------------------------------
  // Composition with la:foreach.

  /** A word-named item variable passes the foreach processor's checks, and a top-level
      loop's property path is its list's name. */
  lemma TopLevelSpec(listExpr: string, itemVar: string)
    requires IsWord(itemVar)
    ensures ForEach.IterationSpecOf(Some(itemVar), ForEach.NoStatusVar, ForEach.VariableExpr(listExpr), map[])
            == Success(IterationSpec(itemVar, None, ForEach.CurrentPropertyName(ForEach.VariableExpr(listExpr))))
  {
    assert !IsWhitespace(itemVar[0]) by { assert IsWordChar(itemVar[0]); }
  }

  /** Binding an item of a path-carrying spec without a declared status variable puts its
      form path under the path variable. */
  lemma ItemFormPathBound(spec: IterationSpec, size: nat, index: nat, item: Value)
    requires spec.statusVarName.None? && spec.propertyPath.Some?
    ensures ForEach.BindItem(map[], spec, size, index, item)[ForEach.FORM_PROPERTY_PATH_VAR]
            == ValueLocal(TextValue(ForEach.FormPath(spec.propertyPath.value, index)))
  {
    var statusKey := ForEach.StatusVarKey(spec);
    var specKey := ForEach.SpecVarKey(spec);
    var form := ForEach.FORM_PROPERTY_PATH_VAR;
    assert statusKey[|statusKey| - 1] == 't';
    assert specKey[|specKey| - 1] == 'c';
    assert form[|form| - 1] == 'h';
  }

  /** The field name inside a loop item is the item's form path, a dot, and the
      property after the item variable. */
  lemma {:induction false} ItemPropertyFieldName(locals: map<string, Local>, path: string, itemVar: string, rest: string)
    requires ForEach.FORM_PROPERTY_PATH_VAR in locals
    requires locals[ForEach.FORM_PROPERTY_PATH_VAR] == ValueLocal(TextValue(path))
    requires '.' !in itemVar
    ensures FieldName(locals, itemVar + "." + rest) == Success(path + "." + rest)
  {
    IndexOfConcat(itemVar, '.', rest);
    assert itemVar + "." + rest == itemVar + ['.'] + rest;
  }

  /** Inside a top-level `item : ${form.items}`, a property "item.rest" names the field
      "items[<index>].rest" for every item (the spec is the one TopLevelSpec gives). */
  lemma ForEachItemFieldName(path: string, itemVar: string, rest: string, size: nat, index: nat, item: Value)
    requires '.' !in itemVar
    ensures FieldName(ForEach.BindItem(map[], IterationSpec(itemVar, None, Some(path)), size, index, item),
                      itemVar + "." + rest)
            == Success(path + "[" + NatToString(index) + "]." + rest)
  {
    var spec := IterationSpec(itemVar, None, Some(path));
    var locals := ForEach.BindItem(map[], spec, size, index, item);
    ItemFormPathBound(spec, size, index, item);
    ItemPropertyFieldName(locals, ForEach.FormPath(path, index), itemVar, rest);
    FormPathDotted(path, NatToString(index), rest);
  }

  lemma FormPathDotted(path: string, digits: string, rest: string)
    ensures (path + "[" + digits + "]") + "." + rest == path + "[" + digits + "]." + rest
  {
    assert "]" + "." == "].";
    assert (path + "[" + digits + "]") + "." == path + "[" + digits + "].";
  }

  /** The documented list row `th:each="item : ${items}"` declares the item variable over the path `items`. */
  lemma DocumentedForEachSpec()
    ensures ForEach.IterationSpecOf(Some("item"), ForEach.NoStatusVar, ForEach.VariableExpr("items"), map[])
            == Success(IterationSpec("item", None, Some("items")))
  {
    assert IsWord("item") by {
      forall k | 0 <= k < 4 ensures IsWordChar("item"[k]) { }
    }
    TopLevelSpec("items", "item");
    assert ForEach.CurrentPropertyName(ForEach.VariableExpr("items")) == Some("items");
  }
}
