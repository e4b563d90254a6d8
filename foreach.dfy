/** The la:foreach processor (attr/ForEachAttrProcessor.java): Thymeleaf's each, plus a
    form property path such as "items[2]" recorded for every iterated item so that
    la:property inside the loop can name its field after the list element. */
module ForEach {

  import opened Wrappers
  import opened JavaText
  import opened Template

  const PRECEDENCE: int := 200
  const FORM_PROPERTY_PATH_VAR: string := "foreach_form_property_path"
  const ITERATION_SPEC_VAR_SUFFIX: string := "Spec"
  /** Thymeleaf's AbstractIterationAttrProcessor.DEFAULT_STATUS_VAR_SUFFIX. */
  const DEFAULT_STATUS_VAR_SUFFIX: string := "Stat"

  /** The iterable expression after ':' as the host's parser classified it. */
  datatype IterableExpr =
    | VariableExpr(expression: string)           // ${...}
    | SelectionVariableExpr(expression: string)  // *{...}
    | OtherExpr

  /** The status-variable part of a foreach value: absent, or present with the
      evaluated name (None when it evaluated to null). */
  datatype StatusDecl = NoStatusVar | StatusVarDeclared(name: Option<string>)

  datatype ForEachError =
    | IterVarNameEmpty     // TemplateProcessingException: iteration variable null or blank
    | StatusVarNameEmpty   // TemplateProcessingException: declared status variable null or blank
    | ParentPathNotString  // ClassCastException casting the enclosing path local to String

  /** getCurrentPropertyNameFromIterVarExpr: the last dot-free segment of a variable or
      selection expression ("form.items" gives "items"), nothing for any other kind. */
  function CurrentPropertyName(iterable: IterableExpr): (r: Option<string>)
    ensures r.None? <==> iterable.OtherExpr?
    ensures r.Some? ==> '.' !in r.value
    ensures r.Some? ==> |r.value| <= |iterable.expression|
                        && r.value == iterable.expression[|iterable.expression| - |r.value|..]
    ensures r.Some? && |r.value| < |iterable.expression| ==>
              iterable.expression[|iterable.expression| - |r.value| - 1] == '.'
  {
    if iterable.OtherExpr? then None
    else
      var e := iterable.expression;
      var i := LastIndexOf(e, '.');
      if i < 0 then Some(e) else Some(e[i + 1..])
  }

  /** The property path of a loop: its own list name, under the enclosing loop's item
      path when there is one. */
  function PropertyPath(parentPath: Option<string>, current: string): (r: string)
    ensures parentPath.None? ==> r == current
    ensures parentPath.Some? ==> r == parentPath.value + "." + current
  {
    if parentPath.None? then current else parentPath.value + "." + current
  }

  /** getIterationSpec: validates the variable names and, for a variable or selection
      iterable, extends the enclosing form property path with the list's name. */
  function IterationSpecOf(iterVar: Option<string>, status: StatusDecl, iterable: IterableExpr,
                           locals: map<string, Local>): (r: Result<IterationSpec, ForEachError>)
    ensures IsEmptyOrWhitespace(iterVar) <==> r == Failure(IterVarNameEmpty)
    ensures (!IsEmptyOrWhitespace(iterVar) && status.StatusVarDeclared? && IsEmptyOrWhitespace(status.name))
            <==> r == Failure(StatusVarNameEmpty)
    ensures r.Success? <==>
              && !IsEmptyOrWhitespace(iterVar)
              && !(status.StatusVarDeclared? && IsEmptyOrWhitespace(status.name))
              && !(!iterable.OtherExpr? && FORM_PROPERTY_PATH_VAR in locals
                   && CastToString(locals[FORM_PROPERTY_PATH_VAR]).NotString?)
    ensures r == Failure(ParentPathNotString) <==>
              && !IsEmptyOrWhitespace(iterVar)
              && !(status.StatusVarDeclared? && IsEmptyOrWhitespace(status.name))
              && !iterable.OtherExpr?
              && FORM_PROPERTY_PATH_VAR in locals && CastToString(locals[FORM_PROPERTY_PATH_VAR]).NotString?
    ensures r.Success? ==> && iterVar.Some? && r.value.iterVarName == iterVar.value
                           && r.value.statusVarName == (if status.StatusVarDeclared? then status.name else None)
                           && (r.value.propertyPath.Some? <==> !iterable.OtherExpr?)
    ensures r.Success? && !iterable.OtherExpr? ==>
              var current := CurrentPropertyName(iterable).value;
              if FORM_PROPERTY_PATH_VAR in locals && locals[FORM_PROPERTY_PATH_VAR].ValueLocal?
                 && locals[FORM_PROPERTY_PATH_VAR].value.TextValue?
              then r.value.propertyPath == Some(locals[FORM_PROPERTY_PATH_VAR].value.s + "." + current)
              else r.value.propertyPath == Some(current)
  {
    if IsEmptyOrWhitespace(iterVar) then Failure(IterVarNameEmpty)
    else if status.StatusVarDeclared? && IsEmptyOrWhitespace(status.name) then Failure(StatusVarNameEmpty)
    else
      var statusVarName := if status.StatusVarDeclared? then status.name else None;
      match CurrentPropertyName(iterable)
      case None => Success(IterationSpec(iterVar.value, statusVarName, None))
      case Some(current) =>
        var parent := if FORM_PROPERTY_PATH_VAR in locals then CastToString(locals[FORM_PROPERTY_PATH_VAR]) else NullString;
        match parent
        case NotString => Failure(ParentPathNotString)
        case NullString => Success(IterationSpec(iterVar.value, statusVarName, Some(PropertyPath(None, current))))
        case IsString(p) => Success(IterationSpec(iterVar.value, statusVarName, Some(PropertyPath(Some(p), current))))
  }

  /** The form path of one item: "items[2]" for index 2 of path "items". */
  function FormPath(propertyPath: string, index: nat): (r: string)
    ensures |r| > |propertyPath| + 2 && r[..|propertyPath|] == propertyPath
    ensures r[|propertyPath|] == '[' && r[|r| - 1] == ']'
    ensures r[|propertyPath| + 1..|r| - 1] == NatToString(index)
  {
    propertyPath + "[" + NatToString(index) + "]"
  }

  /** The name the status object is bound under: the declared one, or iterVar + "Stat". */
  function StatusVarKey(spec: IterationSpec): (r: string)
    ensures spec.statusVarName.Some? ==> r == spec.statusVarName.value
    ensures spec.statusVarName.None? ==> r == spec.iterVarName + DEFAULT_STATUS_VAR_SUFFIX
  {
    if spec.statusVarName.Some? then spec.statusVarName.value else spec.iterVarName + DEFAULT_STATUS_VAR_SUFFIX
  }

  /** The status object of item `index` of `size` items. */
  function StatusFor(spec: IterationSpec, size: nat, index: nat, item: Value): (r: StatusVar)
    ensures r.index == index && r.count == index + 1 && r.size == size && r.current == item
    ensures r.propertyPath.Some? <==> spec.propertyPath.Some?
    ensures spec.propertyPath.Some? ==> r.propertyPath == Some(FormPath(spec.propertyPath.value, index))
  {
    var path := if spec.propertyPath.Some? then Some(FormPath(spec.propertyPath.value, index)) else None;
    StatusVar(index, index + 1, size, item, path)
  }

  function SpecVarKey(spec: IterationSpec): string
  {
    spec.iterVarName + ITERATION_SPEC_VAR_SUFFIX
  }

  /** The node-local variables of a cloned element after prepareLocalVariablesForEachIterationItem:
      the item, the form path (for a path-carrying spec), the status and the spec, each
      put after the previous one. */
  function BindItem(locals: map<string, Local>, spec: IterationSpec, size: nat, index: nat, item: Value)
    : (r: map<string, Local>)
    ensures r.Keys == locals.Keys + {spec.iterVarName, StatusVarKey(spec), SpecVarKey(spec)}
                      + (if spec.propertyPath.Some? then {FORM_PROPERTY_PATH_VAR} else {})
    ensures r[SpecVarKey(spec)] == SpecLocal(spec)
    ensures StatusVarKey(spec) != SpecVarKey(spec) ==>
              r[StatusVarKey(spec)] == StatusLocal(StatusFor(spec, size, index, item))
    ensures spec.propertyPath.Some? && FORM_PROPERTY_PATH_VAR !in {StatusVarKey(spec), SpecVarKey(spec)} ==>
              r[FORM_PROPERTY_PATH_VAR] == ValueLocal(TextValue(FormPath(spec.propertyPath.value, index)))
    ensures spec.iterVarName !in {StatusVarKey(spec), SpecVarKey(spec)}
            && !(spec.propertyPath.Some? && spec.iterVarName == FORM_PROPERTY_PATH_VAR) ==>
              r[spec.iterVarName] == ValueLocal(item)
    ensures forall k :: (k in locals && k !in {spec.iterVarName, StatusVarKey(spec), SpecVarKey(spec)}
                         && !(spec.propertyPath.Some? && k == FORM_PROPERTY_PATH_VAR)) ==> r[k] == locals[k]
  {
    var withItem := locals[spec.iterVarName := ValueLocal(item)];
    var withPath :=
      if spec.propertyPath.Some?
      then withItem[FORM_PROPERTY_PATH_VAR := ValueLocal(TextValue(FormPath(spec.propertyPath.value, index)))]
      else withItem;
    withPath[StatusVarKey(spec) := StatusLocal(StatusFor(spec, size, index, item))][SpecVarKey(spec) := SpecLocal(spec)]
  }

  /** prepareLocalVariablesForEachIterationItem: binds the item's variables on the clone. */
  method PrepareItemLocals(cloned: Node, spec: IterationSpec, size: nat, index: nat, item: Value)
    modifies cloned
    ensures cloned.locals == BindItem(old(cloned.locals), spec, size, index, item)
    ensures cloned.properties == old(cloned.properties)
  {
    cloned.locals := cloned.locals[spec.iterVarName := ValueLocal(item)];
    var status: StatusVar;
    if spec.propertyPath.Some? {
      var formNamePath := FormPath(spec.propertyPath.value, index);
      status := StatusVar(index, index + 1, size, item, Some(formNamePath));
      cloned.locals := cloned.locals[FORM_PROPERTY_PATH_VAR := ValueLocal(TextValue(formNamePath))];
    } else {
      status := StatusVar(index, index + 1, size, item, None);
    }
    if spec.statusVarName.Some? {
      cloned.locals := cloned.locals[spec.statusVarName.value := StatusLocal(status)];
    } else {
      cloned.locals := cloned.locals[spec.iterVarName + DEFAULT_STATUS_VAR_SUFFIX := StatusLocal(status)];
    }
    cloned.locals := cloned.locals[spec.iterVarName + ITERATION_SPEC_VAR_SUFFIX := SpecLocal(spec)];
  }
}
