/** The older la:property processor (processor/PropertyAttrProcessor.java, Thymeleaf 2):
    instead of a form path left by la:foreach, it looks up the ancestors for the nearest
    th:each that declares the property's leading variable and emits an expression that
    indexes the iterated list with that loop's status variable. */
module LegacyProperty {

  import opened Wrappers
  import opened JavaText
  import opened Template
  import Property

  const PRECEDENCE: int := 950
  /** The normalized name of the standard iteration attribute. */
  const EACH_ATTR_NAME: string := "th:each"

  /** substring(0, indexOf(":")) of a th:each value without ':' throws
      StringIndexOutOfBoundsException. */
  datatype EachError = ColonMissing(eachValue: string)

  /** The declaration side of a th:each value: the text before its first ':'. */
  function Declaration(eachValue: string): (r: Result<string, EachError>)
    ensures r.Failure? <==> ':' !in eachValue
    ensures r.Success? ==> ':' !in r.value && |r.value| < |eachValue|
                           && eachValue[..|r.value|] == r.value && eachValue[|r.value|] == ':'
  {
    var separate := IndexOf(eachValue, ':');
    if separate < 0 then Failure(ColonMissing(eachValue)) else Success(eachValue[..separate])
  }

  /** The iteration variable of a declaration: cut at its first ',' when that comma
      is not the first character, and trimmed. */
  function DeclaredName(prod: string): (r: string)
    ensures Trimmed(r)
  {
    var statusProd := IndexOf(prod, ',');
    if statusProd > 0 then Trim(prod[..statusProd]) else Trim(prod)
  }

  /** The status variable of a declaration as the source reads it: with a comma after
      the first character, the declaration from the comma on (the comma kept), trimmed;
      otherwise the trimmed declaration followed by "Stat". */
  function DeclaredStatusName(prod: string): string
  {
    var statusProd := IndexOf(prod, ',');
    if statusProd > 0 then Trim(prod[statusProd..]) else Trim(prod) + "Stat"
  }

  /** The status variable the comma branch evidently means: the declaration after the
      comma, trimmed; the branch without a comma is unchanged. */
  function IntendedDeclaredStatusName(prod: string): string
  {
    var statusProd := IndexOf(prod, ',');
    if statusProd > 0 then Trim(prod[statusProd + 1..]) else Trim(prod) + "Stat"
  }

  /** getProdNameFromEachAttributeValue. */
  function ProdName(eachValue: string): (r: Result<string, EachError>)
    ensures r.Failure? <==> ':' !in eachValue
    ensures r.Success? ==> Trimmed(r.value) && ':' !in r.value
  {
    match Declaration(eachValue)
    case Failure(e) => Failure(e)
    case Success(prod) =>
      var statusProd := IndexOf(prod, ',');
      if statusProd > 0 then
        TrimKeepsOut(prod[..statusProd], ':');
        Success(DeclaredName(prod))
      else
        TrimKeepsOut(prod, ':');
        Success(DeclaredName(prod))
  }

  /** getProdStatusNameFromEachAttributeValue, as written. */
  function ProdStatusName(eachValue: string): (r: Result<string, EachError>)
    ensures r.Failure? <==> ':' !in eachValue
  {
    match Declaration(eachValue)
    case Failure(e) => Failure(e)
    case Success(prod) => Success(DeclaredStatusName(prod))
  }

  /** getProdStatusNameFromEachAttributeValue, as evidently intended. */
  function IntendedStatusName(eachValue: string): (r: Result<string, EachError>)
    ensures r.Failure? <==> ':' !in eachValue
  {
    match Declaration(eachValue)
    case Failure(e) => Failure(e)
    case Success(prod) => Success(IntendedDeclaredStatusName(prod))
  }

  /** A character of the class [a-zA-Z_0-9.]. */
  predicate IsPathChar(c: char)
  {
    IsWordChar(c) || c == '.'
  }

  predicate IsPath(p: string)
  {
    |p| > 0 && forall k :: 0 <= k < |p| ==> IsPathChar(p[k])
  }

  /** The pattern \$\{([a-zA-Z_0-9.]+)\} matches the whole text. */
  predicate IsPathExpression(e: string)
  {
    |e| >= 3 && e[..2] == "${" && e[|e| - 1] == '}' && IsPath(e[2..|e| - 1])
  }

  lemma Bracketed(e: string)
    requires |e| >= 3 && e[..2] == "${" && e[|e| - 1] == '}'
    ensures e == "${" + e[2..|e| - 1] + "}"
  {
    assert e == e[..2] + e[2..|e| - 1] + [e[|e| - 1]];
  }

  /** The iterated side of a th:each value: the trimmed text after the first ':', or the
      whole value trimmed when it has none. */
  function IteratedExpression(eachValue: string): string
  {
    Trim(eachValue[IndexOf(eachValue, ':') + 1..])
  }

  /** getExpressionPropertyName: the path inside a `${...}` iterated expression. */
  function ExpressionPropertyName(eachValue: string): (r: Option<string>)
    ensures r.Some? <==> IsPathExpression(IteratedExpression(eachValue))
    ensures r.Some? ==> IteratedExpression(eachValue) == "${" + r.value + "}"
  {
    var expression := IteratedExpression(eachValue);
    if IsPathExpression(expression) then
      Bracketed(expression);
      Some(expression[2..|expression| - 1])
    else None
  }

  /** The list name of the resolved expression: the last segment of the iterated path
      when the path has a '.' after its first character, the whole path when it has
      none there, and the iteration variable when the iterated expression is no path. */
  function ListName(expressionPropertyName: Option<string>, eachName: string): (r: string)
    ensures expressionPropertyName.None? ==> r == eachName
    ensures expressionPropertyName.Some? && IndexOf(expressionPropertyName.value, '.') <= 0 ==>
              r == expressionPropertyName.value
    ensures expressionPropertyName.Some? && IndexOf(expressionPropertyName.value, '.') > 0 ==>
              var p := expressionPropertyName.value;
              '.' !in r && |r| < |p| && p == p[..|p| - |r| - 1] + "." + r
  {
    match expressionPropertyName
    case None => eachName
    case Some(p) =>
      if IndexOf(p, '.') > 0 then
        var last := LastIndexOf(p, '.');
        assert p == p[..last] + "." + p[last + 1..];
        p[last + 1..]
      else p
  }

  /** EACH_PROPERTY_FORM_NAME formatted: a Thymeleaf expression indexing the list with
      the loop status's index. */
  function IndexedName(listName: string, statusName: string, nextName: string): string
  {
    "'" + listName + "[' + ${" + statusName + ".index} + ']." + nextName + "'"
  }

  // ---------------------------------------------------------------------------
  // The search up the ancestors (getParentEachValue).

  /** An attribute the scan passes over when looking for eachName: not a th:each, or a
      th:each declaring another variable. */
  predicate PassesOver(a: Attribute, eachName: string)
  {
    a.name != EACH_ATTR_NAME || (ProdName(a.value).Success? && ProdName(a.value).value != eachName)
  }

  /** The loop over one element's attributes: the value of the first th:each that
      declares eachName; failing on a th:each without ':' met before it. */
  function ScanEach(attributes: seq<Attribute>, eachName: string): (r: Result<Option<string>, EachError>)
    ensures r == Success(None) <==> forall k :: 0 <= k < |attributes| ==> PassesOver(attributes[k], eachName)
    ensures r.Success? && r.value.Some? ==> ProdName(r.value.value) == Success(eachName) && ':' in r.value.value
  {
    if |attributes| == 0 then Success(None)
    else
      var a := attributes[0];
      assert forall k :: 1 <= k < |attributes| ==> attributes[k] == attributes[1..][k - 1];
      if a.name != EACH_ATTR_NAME then ScanEach(attributes[1..], eachName)
      else match ProdName(a.value)
        case Failure(e) => Failure(e)
        case Success(prod) => if eachName == prod then Success(Some(a.value)) else ScanEach(attributes[1..], eachName)
  }

  /** A value the scan finds is that of a th:each declaring eachName, and every
      attribute before it is passed over. */
  lemma {:induction false} ScanEachFound(attributes: seq<Attribute>, eachName: string)
    requires ScanEach(attributes, eachName).Success? && ScanEach(attributes, eachName).value.Some?
    ensures var v := ScanEach(attributes, eachName).value.value;
            exists k :: 0 <= k < |attributes| && attributes[k] == Attribute(EACH_ATTR_NAME, v)
                        && forall j :: 0 <= j < k ==> PassesOver(attributes[j], eachName)
  {
    var v := ScanEach(attributes, eachName).value.value;
    var a := attributes[0];
    var tail := attributes[1..];
    if a.name == EACH_ATTR_NAME && ProdName(a.value) == Success(eachName) {
      assert ScanEach(attributes, eachName) == Success(Some(a.value));
      assert attributes[0] == Attribute(EACH_ATTR_NAME, v);
    } else {
      if a.name == EACH_ATTR_NAME {
        assert ProdName(a.value).Success?;
      }
      assert ScanEach(attributes, eachName) == ScanEach(tail, eachName);
      assert PassesOver(a, eachName);
      ScanEachFound(tail, eachName);
      var k :| 0 <= k < |tail| && tail[k] == Attribute(EACH_ATTR_NAME, v)
               && forall j :: 0 <= j < k ==> PassesOver(tail[j], eachName);
      assert attributes[k + 1] == tail[k];
      forall j | 0 <= j < k + 1 ensures PassesOver(attributes[j], eachName) {
        if j > 0 { assert attributes[j] == tail[j - 1]; }
      }
    }
  }

  /** A scan fails only on a th:each without ':' that comes before any declaration of
      eachName. */
  lemma {:induction false} ScanEachFailure(attributes: seq<Attribute>, eachName: string)
    requires ScanEach(attributes, eachName).Failure?
    ensures exists k :: 0 <= k < |attributes| && attributes[k].name == EACH_ATTR_NAME && ':' !in attributes[k].value
                        && forall j :: 0 <= j < k ==> PassesOver(attributes[j], eachName)
  {
    var a := attributes[0];
    var tail := attributes[1..];
    if a.name != EACH_ATTR_NAME || ':' in a.value {
      if a.name == EACH_ATTR_NAME {
        assert ProdName(a.value).Success?;
      }
      assert ScanEach(attributes, eachName) == ScanEach(tail, eachName);
      assert PassesOver(a, eachName);
      ScanEachFailure(tail, eachName);
      var k :| 0 <= k < |tail| && tail[k].name == EACH_ATTR_NAME && ':' !in tail[k].value
               && forall j :: 0 <= j < k ==> PassesOver(tail[j], eachName);
      assert attributes[k + 1] == tail[k];
      forall j | 0 <= j < k + 1 ensures PassesOver(attributes[j], eachName) {
        if j > 0 { assert attributes[j] == tail[j - 1]; }
      }
    }
  }

  /** The whole search: the parent's th:each declarations, then the grandparent's, and so
      on up to the root element; nothing when the element is the root. */
  function EachSearch(element: Node, eachName: string): (r: Result<Option<string>, EachError>)
    requires element.Valid()
    ensures element.parent == null ==> r == Success(None)
    ensures r == Success(None) <==>
              forall a :: a in element.Ancestors ==> ScanEach(a.attributes, eachName) == Success(None)
    ensures r != Success(None) ==>
              exists a :: && a in element.Ancestors && ScanEach(a.attributes, eachName) == r
                          && forall b :: b in element.Ancestors && b.depth > a.depth ==>
                                           ScanEach(b.attributes, eachName) == Success(None)
    ensures r.Success? && r.value.Some? ==> ProdName(r.value.value) == Success(eachName) && ':' in r.value.value
    decreases element.depth
  {
    if element.parent == null then Success(None)
    else
      var found := ScanEach(element.parent.attributes, eachName);
      AncestorsShallower(element.parent);
      if found != Success(None) then found else EachSearch(element.parent, eachName)
  }

  /** The converse: the scan of an ancestor that finds something, with nothing found
      below it, is the search's result. */
  lemma EachSearchFindsNearest(element: Node, a: Node, eachName: string)
    requires element.Valid() && a in element.Ancestors
    requires ScanEach(a.attributes, eachName) != Success(None)
    requires forall b :: b in element.Ancestors && b.depth > a.depth ==> ScanEach(b.attributes, eachName) == Success(None)
    ensures EachSearch(element, eachName) == ScanEach(a.attributes, eachName)
    decreases element.depth
  {
    var parent := element.parent;
    AncestorsShallower(parent);
    if a != parent {
      assert a in parent.Ancestors;
      EachSearchFindsNearest(parent, a, eachName);
    }
  }

  /** getParentEachValue: the loop over the parent's attributes, then the same search
      from the parent. */
  method ParentEachValue(element: Node, eachName: string) returns (r: Result<Option<string>, EachError>)
    requires element.Valid()
    ensures r == EachSearch(element, eachName)
    decreases element.depth
  {
    var parent := element.parent;
    if parent == null {
      return Success(None);
    }
    var attributes := parent.attributes;
    var i := 0;
    while i < |attributes|
      invariant 0 <= i <= |attributes|
      invariant ScanEach(attributes, eachName) == ScanEach(attributes[i..], eachName)
    {
      var attribute := attributes[i];
      assert attributes[i..][1..] == attributes[i + 1..];
      if attribute.name == EACH_ATTR_NAME {
        var prod := ProdName(attribute.value);
        if prod.Failure? {
          return Failure(prod.error);
        }
        if eachName == prod.value {
          return Success(Some(attribute.value));
        }
      }
      i := i + 1;
    }
    r := ParentEachValue(parent, eachName);
  }

  // ---------------------------------------------------------------------------
  // getPropertyFieldName.

  /** The variable a dotted property starts with, trimmed. */
  function EachName(name: string): string
    requires IndexOf(name, '.') > 0
  {
    Trim(name[..IndexOf(name, '.')])
  }

  /** The field name given the result of the ancestor search for the property's leading
      variable: unchanged when nothing was found, the indexed expression otherwise. */
  function ResolvedFieldName(name: string, found: Result<Option<string>, EachError>): (r: Result<string, EachError>)
    requires IndexOf(name, '.') > 0
    requires found.Success? && found.value.Some? ==> ':' in found.value.value
    ensures found == Success(None) ==> r == Success(name)
    ensures r.Failure? <==> found.Failure?
  {
    match found
    case Failure(e) => Failure(e)
    case Success(None) => Success(name)
    case Success(Some(eachAttr)) =>
      match ProdStatusName(eachAttr)
      case Failure(e) => Failure(e)
      case Success(statusName) =>
        var listName := ListName(ExpressionPropertyName(eachAttr), EachName(name));
        Success(IndexedName(listName, statusName, name[IndexOf(name, '.') + 1..]))
  }

  /** What getPropertyFieldName computes for a property name at an element. */
  function FieldName(element: Node, name: string): (r: Result<string, EachError>)
    requires element.Valid()
    ensures IndexOf(name, '.') <= 0 ==> r == Success(name)
    ensures element.parent == null ==> r == Success(name)
  {
    if IndexOf(name, '.') > 0 then ResolvedFieldName(name, EachSearch(element, EachName(name)))
    else Success(name)
  }

  /** getPropertyFieldName. */
  method PropertyFieldName(element: Node, name: string) returns (r: Result<string, EachError>)
    requires element.Valid()
    ensures r == FieldName(element, name)
  {
    var dot := IndexOf(name, '.');
    if dot > 0 {
      var eachName := Trim(name[..dot]);
      var eachAttr := ParentEachValue(element, eachName);
      r := ResolvedFieldName(name, eachAttr);
    } else {
      r := Success(name);
    }
  }

  /** APPEND_ERROR_STYLE_CLASS of this generation, formatted with the field name. */
  function ErrorStyleClass(fieldName: string): string
  {
    "${errors.hasMessageOf('" + fieldName + "')} ? 'validError'"
  }

  /** APPEND_ERROR_STYLE_CLASS_ATTRAPEND of this generation, formatted with the field name. */
  function ErrorStyleAttrAppend(fieldName: string): string
  {
    "class=(${errors.hasMessageOf('" + fieldName + "')} ? ' validError')"
  }

  /** getModifiedAttributeValues: the same table as the newer processor over the field
      name resolved here, and the raw property name recorded on a select. */
  method ModifiedAttributeValues(element: Node, propertyName: string)
    returns (r: Result<map<string, string>, EachError>)
    requires element.Valid()
    modifies element
    ensures var fieldName := FieldName(element, propertyName);
            && (r.Failure? <==> fieldName.Failure?)
            && (r.Success? ==> Property.BindingTable(r.value, element.tag, element.attributes, propertyName,
                                                     fieldName.value, ErrorStyleClass(fieldName.value),
                                                     ErrorStyleAttrAppend(fieldName.value)))
    ensures element.properties == if r.Success? && element.tag == "select"
                                  then old(element.properties)[Property.SELECT_PROPERTY_NAME := propertyName]
                                  else old(element.properties)
    ensures element.locals == old(element.locals)
  {
    var fieldName := PropertyFieldName(element, propertyName);
    if fieldName.Failure? {
      return Failure(fieldName.error);
    }
    var values := Property.BindingDirectives(element.tag, element.attributes, propertyName, fieldName.value,
                                             ErrorStyleClass(fieldName.value), ErrorStyleAttrAppend(fieldName.value));
    if element.tag == "select" {
      element.properties := element.properties[Property.SELECT_PROPERTY_NAME := propertyName];
    }
    r := Success(values);
  }

  // ---------------------------------------------------------------------------
  // Reading a th:each value back.

  /** A blank-padded word carries no ':' or ',' and trims to itself. */
  lemma PaddedWord(a: string, w: string, b: string)
    requires Blank(a) && IsWord(w) && Blank(b)
    ensures ':' !in a + w + b && ',' !in a + w + b && '.' !in a + w + b
    ensures Trim(a + w + b) == w
  {
    WordIsTrimmed(w);
    TrimPadded(a, w, b);
  }

  /** The declaration of `<prod>:<rhs>` is prod when prod has no ':'. */
  lemma {:induction false} DeclarationOf(prod: string, rhs: string)
    requires ':' !in prod
    ensures Declaration(prod + ":" + rhs) == Success(prod)
  {
    IndexOfConcat(prod, ':', rhs);
    assert prod + ":" + rhs == prod + [':'] + rhs;
    assert (prod + [':'] + rhs)[..|prod|] == prod;
  }

  /** A declaration without a comma: the trimmed text, and its default status name, in
      both readings. */
  lemma {:induction false} DeclaredWithoutComma(prod: string)
    requires ',' !in prod
    ensures DeclaredName(prod) == Trim(prod)
    ensures DeclaredStatusName(prod) == Trim(prod) + "Stat"
    ensures IntendedDeclaredStatusName(prod) == Trim(prod) + "Stat"
  {
  }

  /** A declaration `<left>,<right>` with a non-empty comma-free left side: the variable
      is the trimmed left side; as written the status name starts with the comma, as
      intended it is the trimmed right side. */
  lemma {:induction false} DeclaredWithComma(left: string, right: string)
    requires |left| > 0 && ',' !in left
    ensures DeclaredName(left + "," + right) == Trim(left)
    ensures DeclaredStatusName(left + "," + right) == Trim("," + right)
    ensures IntendedDeclaredStatusName(left + "," + right) == Trim(right)
  {
    var prod := left + "," + right;
    IndexOfConcat(left, ',', right);
    assert prod == left + [','] + right;
    assert prod[..|left|] == left;
    assert prod[|left|..] == "," + right;
    assert prod[|left| + 1..] == right;
  }

  /** `<iter> : <expression>` declares iter and, with no status variable written, the
      status variable iter + "Stat", in both readings. */
  lemma ParseWithoutStatus(a: string, iter: string, b: string, rhs: string)
    requires Blank(a) && IsWord(iter) && Blank(b)
    ensures ProdName(a + iter + b + ":" + rhs) == Success(iter)
    ensures ProdStatusName(a + iter + b + ":" + rhs) == Success(iter + "Stat")
    ensures IntendedStatusName(a + iter + b + ":" + rhs) == Success(iter + "Stat")
  {
    PaddedWord(a, iter, b);
    DeclarationOf(a + iter + b, rhs);
    DeclaredWithoutComma(a + iter + b);
  }

  /** `<iter>, <stat> : <expression>` declares iter; as written its status name is the
      comma followed by the padding and stat, as intended it is stat. */
  lemma ParseWithStatus(a: string, iter: string, b: string, c: string, stat: string, d: string, rhs: string)
    requires Blank(a) && IsWord(iter) && Blank(b) && Blank(c) && IsWord(stat) && Blank(d)
    ensures ProdName((a + iter + b) + "," + (c + stat + d) + ":" + rhs) == Success(iter)
    ensures ProdStatusName((a + iter + b) + "," + (c + stat + d) + ":" + rhs) == Success("," + c + stat)
    ensures IntendedStatusName((a + iter + b) + "," + (c + stat + d) + ":" + rhs) == Success(stat)
  {
    var left := a + iter + b;
    var right := c + stat + d;
    PaddedWord(a, iter, b);
    PaddedWord(c, stat, d);
    DeclarationOf(left + "," + right, rhs);
    DeclaredWithComma(left, right);
    CommaPadded(c, stat, d);
  }

  /** Trimming a comma followed by a padded word keeps the comma and the blanks after it. */
  lemma CommaPadded(c: string, stat: string, d: string)
    requires Blank(c) && IsWord(stat) && Blank(d)
    ensures Trim("," + (c + stat + d)) == "," + c + stat
  {
    var w := "," + c + stat;
    CommaWordTrimmed(c, stat);
    TrimPaddedRight(w, d);
    ConcatAssociates(",", c + stat, d);
    ConcatAssociates(",", c, stat);
  }

  lemma ConcatAssociates(x: string, y: string, z: string)
    ensures x + (y + z) == (x + y) + z
  {
  }

  lemma CommaWordTrimmed(c: string, stat: string)
    requires IsWord(stat)
    ensures Trimmed("," + c + stat)
  {
    var w := "," + c + stat;
    assert w[0] == ',';
    assert w[|w| - 1] == stat[|stat| - 1];
    assert IsWordChar(stat[|stat| - 1]);
  }

  /** The status name the source derives from the standard `item, st : ${items}`
      (written here as its pieces) keeps the comma, where the loop's status variable is st. */
  lemma StatusNameKeepsComma()
    ensures ProdStatusName(("" + "item" + "") + "," + (" " + "st" + " ") + ":" + " ${items}") == Success("," + " " + "st")
    ensures IntendedStatusName(("" + "item" + "") + "," + (" " + "st" + " ") + ":" + " ${items}") == Success("st")
  {
    assert IsWord("item") by { forall k | 0 <= k < 4 ensures IsWordChar("item"[k]) { } }
    assert IsWord("st") by { forall k | 0 <= k < 2 ensures IsWordChar("st"[k]) { } }
    ParseWithStatus("", "item", "", " ", "st", " ", " ${items}");
  }

  /** The iterated expression of `<lhs>:<rest>` is rest trimmed when lhs has no ':'. */
  lemma {:induction false} IteratedExpressionOf(lhs: string, rest: string)
    requires ':' !in lhs
    ensures IteratedExpression(lhs + ":" + rest) == Trim(rest)
  {
    IndexOfConcat(lhs, ':', rest);
    assert lhs + ":" + rest == lhs + [':'] + rest;
    assert (lhs + [':'] + rest)[|lhs| + 1..] == rest;
  }

  /** `${<path>}` matches the pattern, with path as its group. */
  lemma {:induction false} PathExpressionOf(path: string)
    requires IsPath(path)
    ensures IsPathExpression("${" + path + "}") && ("${" + path + "}")[2..|path| + 2] == path
  {
    var e := "${" + path + "}";
    assert e[..2] == "${";
    assert e[2..|e| - 1] == path;
  }

  /** A path in `${...}`, blank-padded after the ':', is the expression's property name. */
  lemma ParsePathExpression(lhs: string, c: string, path: string, d: string)
    requires ':' !in lhs && Blank(c) && IsPath(path) && Blank(d)
    ensures ExpressionPropertyName(lhs + ":" + (c + ("${" + path + "}") + d)) == Some(path)
  {
    var e := "${" + path + "}";
    PaddedExpression(lhs, c, e, d);
    PropertyNameOfPathExpression(lhs + ":" + (c + e + d), path);
  }

  /** Blanks around the iterated expression are trimmed away. */
  lemma PaddedExpression(lhs: string, c: string, e: string, d: string)
    requires ':' !in lhs && Blank(c) && Blank(d) && Trimmed(e)
    ensures IteratedExpression(lhs + ":" + (c + e + d)) == e
  {
    IteratedExpressionOf(lhs, c + e + d);
    TrimPadded(c, e, d);
  }

  /** An iterated expression `${<path>}` gives path. */
  lemma PropertyNameOfPathExpression(eachValue: string, path: string)
    requires IsPath(path) && IteratedExpression(eachValue) == "${" + path + "}"
    ensures ExpressionPropertyName(eachValue) == Some(path)
  {
    var e := "${" + path + "}";
    PathExpressionOf(path);
    var r := ExpressionPropertyName(eachValue);
    assert "${" + r.value + "}" == e;
    assert r.value == e[2..|e| - 1];
  }

  /** The list name of a dotted path is its last segment. */
  lemma {:induction false} ListNameOfDottedPath(owner: string, list: string, eachName: string)
    requires |owner| > 0 && owner[0] != '.' && '.' !in list
    ensures ListName(Some(owner + "." + list), eachName) == list
  {
    var p := owner + "." + list;
    assert p == owner + ['.'] + list;
    assert p[0] == owner[0];
    LastIndexOfConcat(owner, '.', list);
    assert p[|owner| + 1..] == list;
  }

  // ---------------------------------------------------------------------------
  // Resolution through an enclosing th:each.

  /** The leading variable of `<iter>.<rest>` and the text after it, for any non-empty
      trimmed variable without a '.'. */
  lemma {:induction false} DottedName(iter: string, rest: string)
    requires iter != [] && '.' !in iter && Trimmed(iter)
    ensures IndexOf(iter + "." + rest, '.') == |iter| > 0
    ensures EachName(iter + "." + rest) == iter
    ensures (iter + "." + rest)[|iter| + 1..] == rest
  {
    var name := iter + "." + rest;
    IndexOfConcat(iter, '.', rest);
    assert name == iter + ['.'] + rest;
    assert name[..|iter|] == iter;
    TrimmedUnchanged(iter);
  }

  /** `<owner>.<list>` is a path when owner is one and list is a word. */
  lemma DottedPath(owner: string, list: string)
    requires IsPath(owner) && IsWord(list)
    ensures IsPath(owner + "." + list)
  {
    var path := owner + "." + list;
    forall k | 0 <= k < |path| ensures IsPathChar(path[k]) {
      if k < |owner| { assert path[k] == owner[k]; }
      else if k > |owner| { assert path[k] == list[k - |owner| - 1]; }
    }
  }

  /** What `<iter> : ${<owner>.<list>}` declares, blanks around either side allowed, in
      the source's reading. */
  lemma ParseIteration(a: string, iter: string, b: string, c: string, owner: string, list: string, d: string)
    requires Blank(a) && IsWord(iter) && Blank(b) && Blank(c) && Blank(d)
    requires IsPath(owner) && owner[0] != '.' && IsWord(list)
    ensures var v := (a + iter + b) + ":" + (c + ("${" + (owner + "." + list) + "}") + d);
            && ProdName(v) == Success(iter)
            && ProdStatusName(v) == Success(iter + "Stat")
            && ListName(ExpressionPropertyName(v), iter) == list
  {
    var path := owner + "." + list;
    ParseWithoutStatus(a, iter, b, c + ("${" + path + "}") + d);
    DottedPath(owner, list);
    PaddedWord(a, iter, b);
    ParsePathExpression(a + iter + b, c, path, d);
    WordIsTrimmed(list);
    ListNameOfDottedPath(owner, list, iter);
  }

  /** What `<iter>, <stat> : ${<owner>.<list>}` declares, blanks around each part
      allowed, in the source's reading: the status name keeps the comma. */
  lemma ParseIterationWithStatus(a: string, iter: string, b: string, c: string, stat: string, d: string,
                                 e: string, owner: string, list: string, f: string)
    requires Blank(a) && IsWord(iter) && Blank(b) && Blank(c) && IsWord(stat) && Blank(d) && Blank(e) && Blank(f)
    requires IsPath(owner) && owner[0] != '.' && IsWord(list)
    ensures var v := (a + iter + b) + "," + (c + stat + d) + ":" + (e + ("${" + (owner + "." + list) + "}") + f);
            && ProdName(v) == Success(iter)
            && ProdStatusName(v) == Success("," + c + stat)
            && ListName(ExpressionPropertyName(v), iter) == list
  {
    var path := owner + "." + list;
    var lhs := (a + iter + b) + "," + (c + stat + d);
    ParseWithStatus(a, iter, b, c, stat, d, e + ("${" + path + "}") + f);
    DottedPath(owner, list);
    PaddedWord(a, iter, b);
    PaddedWord(c, stat, d);
    assert ':' !in lhs;
    ParsePathExpression(lhs, e, path, f);
    WordIsTrimmed(list);
    ListNameOfDottedPath(owner, list, iter);
  }

  /** Wherever the search finds the declaring th:each, the property `<iter>.<rest>` is
      named by that loop's list, indexed with its status name as the source reads it. */
  lemma ResolvedThroughAncestor(element: Node, iter: string, rest: string, v: string)
    requires element.Valid() && iter != [] && '.' !in iter && Trimmed(iter)
    requires EachSearch(element, iter) == Success(Some(v))
    ensures ProdStatusName(v).Success?
    ensures FieldName(element, iter + "." + rest)
            == Success(IndexedName(ListName(ExpressionPropertyName(v), iter), ProdStatusName(v).value, rest))
  {
    DottedName(iter, rest);
  }

  /** Two levels up, with nothing declaring iter on the parent, a loop
      `th:each="<iter>, <stat> : ${<owner>.<list>}"` indexes the property `<iter>.<rest>`
      with the status name the source derives: the comma, the blanks and stat. */
  lemma ResolvedThroughGrandparentWithStatus(element: Node, a: string, iter: string, b: string, c: string,
                                             stat: string, d: string, e: string, owner: string, list: string,
                                             f: string, rest: string)
    requires element.Valid() && element.parent != null && element.parent.parent != null
    requires Blank(a) && IsWord(iter) && Blank(b) && Blank(c) && IsWord(stat) && Blank(d) && Blank(e) && Blank(f)
    requires IsPath(owner) && owner[0] != '.' && IsWord(list)
    requires ScanEach(element.parent.attributes, iter) == Success(None)
    requires ScanEach(element.parent.parent.attributes, iter)
             == Success(Some((a + iter + b) + "," + (c + stat + d) + ":" + (e + ("${" + (owner + "." + list) + "}") + f)))
    ensures FieldName(element, iter + "." + rest) == Success(IndexedName(list, "," + c + stat, rest))
  {
    var v := (a + iter + b) + "," + (c + stat + d) + ":" + (e + ("${" + (owner + "." + list) + "}") + f);
    assert EachSearch(element.parent, iter) == Success(Some(v));
    assert EachSearch(element, iter) == Success(Some(v));
    ParseIterationWithStatus(a, iter, b, c, stat, d, e, owner, list, f);
    WordIsTrimmed(iter);
    ResolvedThroughAncestor(element, iter, rest, v);
  }

  /** Under a parent carrying `th:each="<iter> : ${<owner>.<list>}"`, the property
      `<iter>.<rest>` is named by the list's last segment indexed with iter's default
      status variable. */
  lemma ResolvedThroughParent(element: Node, a: string, iter: string, b: string, c: string,
                              owner: string, list: string, d: string, rest: string)
    requires element.Valid() && element.parent != null
    requires Blank(a) && IsWord(iter) && Blank(b) && Blank(c) && Blank(d)
    requires IsPath(owner) && owner[0] != '.' && IsWord(list)
    requires ScanEach(element.parent.attributes, iter)
             == Success(Some((a + iter + b) + ":" + (c + ("${" + (owner + "." + list) + "}") + d)))
    ensures FieldName(element, iter + "." + rest) == Success(IndexedName(list, iter + "Stat", rest))
  {
    WordIsTrimmed(iter);
    DottedName(iter, rest);
    ParseIteration(a, iter, b, c, owner, list, d);
  }
}
