/** The #cls expression object (expression/ClassificationExpressionProcessor.java): lists
    the classifications of a name or of one of its groups, and gives the code and the
    locale-dependent alias of a classification. The listed classification provider, the
    user's alias key and the template being processed come in through a Context. */
module ClassificationExpression {

  import opened Wrappers
  import opened JavaText

  /** Separates a classification name from one of its group names ("sea.land"). */
  const GROUP_DELIMITER: char := '.'

  /** One element of a classification (org.dbflute.jdbc.Classification). */
  datatype Classification = Classification(code: string, name: string, alias: string, subItemMap: map<string, string>)

  /** A ClassificationMeta as the elements and the groups it answers for. */
  datatype Meta = Meta(classifications: seq<Classification>, groups: map<string, seq<Classification>>)

  /** An argument of static type Object: null, a classification, or another object. */
  datatype Obj = NullObj | ClsObj(cls: Classification) | OtherObj(typeName: string)

  /** What the processor asks of its surroundings: the provider's classifications by
      name, the alias key the provider determines for the user's locale, and the
      template name when the processing context has one. */
  datatype Context = Context(provider: map<string, Meta>, aliasKey: Option<string>, templatePath: Option<string>)

  datatype ClsError =
    | IllegalArgument(variableName: string)                        // IllegalArgumentException
    | NonClassificationObject(typeName: string)                    // TemplateProcessingException
    | GroupNotFound(groupName: string, pureName: string)           // TemplateProcessingException
    | ClassificationNotFound(templatePath: Option<string>, expression: string, classificationName: string)
    | ClassificationByNameNotFound(classificationName: string, elementName: string)

  /** The whole message of the plainly built exceptions, the notice of the others. */
  function Notice(e: ClsError): string
  {
    match e
    case IllegalArgument(v) => "The argument '" + v + "' should not be null."
    case NonClassificationObject(_) => "Non classification object specified."
    case GroupNotFound(g, p) => "Not found the classification group: " + g + " of " + p
    case ClassificationNotFound(_, _, _) => "Not found the classification for the list."
    case ClassificationByNameNotFound(_, _) => "Non found the classification by the name."
  }

  // ---------------------------------------------------------------------------
  // The classification meta, as far as the processor uses it.

  /** groupOf: the members of a group, empty for a group the meta does not know. */
  function GroupOf(meta: Meta, groupName: string): seq<Classification>
  {
    if groupName in meta.groups then meta.groups[groupName] else []
  }

  /** What codeOf and nameOf match an element on: its code or its name. */
  datatype Key = ByCode(code: string) | ByName(name: string)

  predicate Matches(c: Classification, key: Key)
  {
    match key
    case ByCode(code) => c.code == code
    case ByName(name) => c.name == name
  }

  /** codeOf / nameOf: the first element matching the key, null (None) when there is none. */
  function Find(s: seq<Classification>, key: Key): (r: Option<Classification>)
    ensures r.None? <==> forall c :: c in s ==> !Matches(c, key)
    ensures r.Some? ==> r.value in s && Matches(r.value, key)
  {
    if s == [] then None
    else if Matches(s[0], key) then Some(s[0])
    else Find(s[1..], key)
  }

  /** The element found is the first match: every element before it fails the key. */
  lemma {:induction false} FindIsFirst(s: seq<Classification>, key: Key)
    requires Find(s, key).Some?
    ensures exists i :: 0 <= i < |s| && s[i] == Find(s, key).value && forall j :: 0 <= j < i ==> !Matches(s[j], key)
  {
    if !Matches(s[0], key) {
      var tail := s[1..];
      FindIsFirst(tail, key);
      var i :| 0 <= i < |tail| && tail[i] == Find(tail, key).value && forall j :: 0 <= j < i ==> !Matches(tail[j], key);
      assert s[i + 1] == tail[i];
      forall j | 0 <= j < i + 1 ensures !Matches(s[j], key) {
        if j > 0 { assert s[j] == tail[j - 1]; }
      }
    } else {
      assert s[0] == Find(s, key).value;
    }
  }

  // ---------------------------------------------------------------------------
  // Helpers of the processor.

  /** assertArgumentNotNull: the value itself, or an IllegalArgumentException naming
      the variable. */
  function ArgumentNotNull<T>(variableName: string, value: Option<T>): (r: Result<T, ClsError>)
    ensures value.Some? <==> r.Success?
    ensures value.Some? ==> r.value == value.value
    ensures value.None? ==> r.error == IllegalArgument(variableName)
  {
    match value
    case None => Failure(IllegalArgument(variableName))
    case Some(v) => Success(v)
  }

  /** assertCanBeClassification over a non-null object: the classification it is, or a
      TemplateProcessingException naming its type. */
  function CanBeClassification(obj: Obj): (r: Result<Classification, ClsError>)
    requires !obj.NullObj?
    ensures r.Success? <==> obj.ClsObj?
    ensures obj.ClsObj? ==> r.value == obj.cls
    ensures obj.OtherObj? ==> r.error == NonClassificationObject(obj.typeName)
  {
    match obj
    case ClsObj(c) => Success(c)
    case OtherObj(t) => Failure(NonClassificationObject(t))
  }

  /** provideClassificationMeta: the provider's meta for the name, or the not-found
      failure carrying the template path, the calling expression and the name. */
  function ProvideMeta(ctx: Context, classificationName: string, callerInfo: string): (r: Result<Meta, ClsError>)
    ensures r.Success? <==> classificationName in ctx.provider
    ensures r.Success? ==> r.value == ctx.provider[classificationName]
    ensures r.Failure? ==> r.error == ClassificationNotFound(ctx.templatePath, callerInfo, classificationName)
  {
    if classificationName in ctx.provider then Success(ctx.provider[classificationName])
    else Failure(ClassificationNotFound(ctx.templatePath, callerInfo, classificationName))
  }

  /** findClassificationAlias: the sub-item under the locale's alias key when the
      provider determines a key and the element has that sub-item, the plain alias
      otherwise. */
  function FindAlias(aliasKey: Option<string>, cls: Classification): (r: string)
    ensures aliasKey.None? ==> r == cls.alias
    ensures aliasKey.Some? && aliasKey.value in cls.subItemMap ==> r == cls.subItemMap[aliasKey.value]
    ensures aliasKey.Some? && aliasKey.value !in cls.subItemMap ==> r == cls.alias
  {
    match aliasKey
    case None => cls.alias
    case Some(key) => if key in cls.subItemMap then cls.subItemMap[key] else cls.alias
  }

  // ---------------------------------------------------------------------------
  // The expression methods.

  /** list: the elements of a classification, or of one of its groups when the name
      holds a '.'; a group that yields nothing fails. */
  function List(ctx: Context, classificationName: Option<string>): (r: Result<seq<Classification>, ClsError>)
    ensures classificationName.None? ==> r == Failure(IllegalArgument("classificationName"))
    ensures r.Failure? && r.error.GroupNotFound? ==> classificationName.Some? && GROUP_DELIMITER in classificationName.value
    ensures r.Success? && GROUP_DELIMITER in classificationName.value ==> r.value != []
  {
    match classificationName
    case None => Failure(IllegalArgument("classificationName"))
    case Some(name) =>
      var caller := "list('" + name + "')";
      if GROUP_DELIMITER in name then
        var i := IndexOf(name, GROUP_DELIMITER);
        var pureName := name[..i];
        var groupName := name[i + 1..];
        match ProvideMeta(ctx, pureName, caller)
        case Failure(e) => Failure(e)
        case Success(meta) =>
          var group := GroupOf(meta, groupName);
          if group == [] then Failure(GroupNotFound(groupName, pureName)) else Success(group)
      else
        match ProvideMeta(ctx, name, caller)
        case Failure(e) => Failure(e)
        case Success(meta) => Success(meta.classifications)
  }

  /** listAll: every element of the classification of that whole name. */
  function ListAll(ctx: Context, classificationName: Option<string>): (r: Result<seq<Classification>, ClsError>)
    ensures classificationName.None? ==> r == Failure(IllegalArgument("classificationName"))
    ensures classificationName.Some? ==>
              (r.Success? <==> classificationName.value in ctx.provider)
    ensures r.Success? ==> r.value == ctx.provider[classificationName.value].classifications
  {
    match ArgumentNotNull("classificationName", classificationName)
    case Failure(e) => Failure(e)
    case Success(name) =>
      match ProvideMeta(ctx, name, "listAll('" + name + "')")
      case Failure(e) => Failure(e)
      case Success(meta) => Success(meta.classifications)
  }

  /** alias: the alias of a classification object, in the user's locale when the
      element has one for it. */
  function Alias(ctx: Context, cls: Obj): (r: Result<string, ClsError>)
    ensures cls.NullObj? ==> r == Failure(IllegalArgument("cls"))
    ensures cls.OtherObj? ==> r == Failure(NonClassificationObject(cls.typeName))
    ensures cls.ClsObj? ==> r == Success(FindAlias(ctx.aliasKey, cls.cls))
  {
    if cls.NullObj? then Failure(IllegalArgument("cls"))
    else
      match CanBeClassification(cls)
      case Failure(e) => Failure(e)
      case Success(c) => Success(FindAlias(ctx.aliasKey, c))
  }

  /** code(Object): the code of a classification object. */
  function Code(cls: Obj): (r: Result<string, ClsError>)
    ensures cls.NullObj? ==> r == Failure(IllegalArgument("cls"))
    ensures cls.OtherObj? ==> r == Failure(NonClassificationObject(cls.typeName))
    ensures cls.ClsObj? ==> r == Success(cls.cls.code)
  {
    if cls.NullObj? then Failure(IllegalArgument("cls"))
    else
      match CanBeClassification(cls)
      case Failure(e) => Failure(e)
      case Success(c) => Success(c.code)
  }

  /** code(String, String): the code of the element of that name in the named
      classification; both names must be given, the classification must exist and
      the element must be found. */
  function CodeByName(ctx: Context, classificationName: Option<string>, elementName: Option<string>)
    : (r: Result<string, ClsError>)
    ensures classificationName.None? ==> r == Failure(IllegalArgument("classificationName"))
    ensures classificationName.Some? && elementName.None? ==> r == Failure(IllegalArgument("elementName"))
    ensures r.Success? ==>
              && classificationName.value in ctx.provider
              && exists c :: c in ctx.provider[classificationName.value].classifications
                             && c.name == elementName.value && c.code == r.value
    ensures r.Failure? && r.error.ClassificationByNameNotFound? ==>
              && classificationName.value in ctx.provider
              && forall c :: c in ctx.provider[classificationName.value].classifications ==> c.name != elementName.value
  {
    match ArgumentNotNull("classificationName", classificationName)
    case Failure(e) => Failure(e)
    case Success(name) =>
      match ArgumentNotNull("elementName", elementName)
      case Failure(e) => Failure(e)
      case Success(element) =>
        match ProvideMeta(ctx, name, "code('" + name + "', '" + element + "')")
        case Failure(e) => Failure(e)
        case Success(meta) =>
          match Find(meta.classifications, ByName(element))
          case None => Failure(ClassificationByNameNotFound(name, element))
          case Some(c) => Success(c.code)
  }

  /** nameOf(String, String): the element of that name, null (None) when the
      classification has none; the names are not checked for null. */
  function NameOf(ctx: Context, classificationName: string, name: string): (r: Result<Option<Classification>, ClsError>)
    ensures r.Success? <==> classificationName in ctx.provider
    ensures r.Success? ==> r.value == Find(ctx.provider[classificationName].classifications, ByName(name))
    ensures r.Failure? ==> r.error == ClassificationNotFound(ctx.templatePath,  "nameOf('" + classificationName + "', '" + name + "')", classificationName)
  {
    match ProvideMeta(ctx, classificationName, "nameOf('" + classificationName + "', '" + name + "')")
    case Failure(e) => Failure(e)
    case Success(meta) => Success(Find(meta.classifications, ByName(name)))
  }

  /** codeOf(String, String) as written: a null classification name is reported under
      the variable name "elementName". */
  function CodeOf(ctx: Context, classificationName: Option<string>, code: Option<string>)
    : (r: Result<Option<Classification>, ClsError>)
    ensures classificationName.None? ==> r == Failure(IllegalArgument("elementName"))
    ensures classificationName.Some? && code.None? ==> r == Failure(IllegalArgument("code"))
    ensures r.Success? <==> classificationName.Some? && code.Some? && classificationName.value in ctx.provider
    ensures r.Success? ==> r.value == Find(ctx.provider[classificationName.value].classifications, ByCode(code.value))
  {
    match ArgumentNotNull("elementName", classificationName)
    case Failure(e) => Failure(e)
    case Success(name) =>
      match ArgumentNotNull("code", code)
      case Failure(e) => Failure(e)
      case Success(c) =>
        match ProvideMeta(ctx, name, "codeOf('" + name + "', '" + c + "')")
        case Failure(e) => Failure(e)
        case Success(meta) => Success(Find(meta.classifications, ByCode(c)))
  }

  /** codeOf(String, String) as its parameters evidently intend: each null argument is
      reported under its own name. */
  function IntendedCodeOf(ctx: Context, classificationName: Option<string>, code: Option<string>)
    : (r: Result<Option<Classification>, ClsError>)
    ensures classificationName.None? ==> r == Failure(IllegalArgument("classificationName"))
    ensures classificationName.Some? && code.None? ==> r == Failure(IllegalArgument("code"))
    ensures r.Success? <==> classificationName.Some? && code.Some? && classificationName.value in ctx.provider
    ensures r.Success? ==> r.value == Find(ctx.provider[classificationName.value].classifications, ByCode(code.value))
  {
    match ArgumentNotNull("classificationName", classificationName)
    case Failure(e) => Failure(e)
    case Success(name) =>
      match ArgumentNotNull("code", code)
      case Failure(e) => Failure(e)
      case Success(c) =>
        match ProvideMeta(ctx, name, "codeOf('" + name + "', '" + c + "')")
        case Failure(e) => Failure(e)
        case Success(meta) => Success(Find(meta.classifications, ByCode(c)))
  }

  // ---------------------------------------------------------------------------
  // Properties.

  /** Without a '.', list answers as listAll does; only the expression named in the
      not-found failure differs. */
  lemma ListWithoutGroup(ctx: Context, name: string)
    requires GROUP_DELIMITER !in name
    ensures List(ctx, Some(name)).Success? <==> ListAll(ctx, Some(name)).Success?
    ensures List(ctx, Some(name)).Success? ==> List(ctx, Some(name)).value == ListAll(ctx, Some(name)).value
    ensures List(ctx, Some(name)).Failure? ==>
              && List(ctx, Some(name)).error == ClassificationNotFound(ctx.templatePath, "list('" + name + "')", name)
              && ListAll(ctx, Some(name)).error == ClassificationNotFound(ctx.templatePath, "listAll('" + name + "')", name)
  {
  }

  /** A name "pure.group" is cut at its first '.': the classification is looked up
      under the part before it, and the group, which may itself hold dots, is the rest;
      an unknown classification and an empty group fail, in that order. */
  lemma ListOfGroup(ctx: Context, pureName: string, groupName: string)
    requires GROUP_DELIMITER !in pureName
    ensures var r := List(ctx, Some(pureName + [GROUP_DELIMITER] + groupName));
            && (pureName !in ctx.provider ==>
                  r == Failure(ClassificationNotFound(ctx.templatePath,
                                 "list('" + (pureName + [GROUP_DELIMITER] + groupName) + "')", pureName)))
            && (pureName in ctx.provider && GroupOf(ctx.provider[pureName], groupName) == [] ==>
                  r == Failure(GroupNotFound(groupName, pureName)))
            && (pureName in ctx.provider && GroupOf(ctx.provider[pureName], groupName) != [] ==>
                  r == Success(GroupOf(ctx.provider[pureName], groupName)))
  {
    CutAtFirst(pureName, GROUP_DELIMITER, groupName);
  }

  /** The two code overloads agree: code(name, element) is the code of the element
      nameOf finds, and fails exactly when nameOf finds none. */
  lemma CodeByNameIsCodeOfFound(ctx: Context, classificationName: string, elementName: string)
    requires classificationName in ctx.provider
    ensures NameOf(ctx, classificationName, elementName).value.Some? ==>
              CodeByName(ctx, Some(classificationName), Some(elementName))
                == Code(ClsObj(NameOf(ctx, classificationName, elementName).value.value))
    ensures NameOf(ctx, classificationName, elementName).value.None? ==>
              CodeByName(ctx, Some(classificationName), Some(elementName))
                == Failure(ClassificationByNameNotFound(classificationName, elementName))
  {
  }

  /** Without an alias key for the user's locale, alias gives the plain alias; with
      one, a sub-item under that key wins over it. */
  lemma AliasInLocale(ctx: Context, c: Classification)
    ensures ctx.aliasKey.None? ==> Alias(ctx, ClsObj(c)) == Success(c.alias)
    ensures ctx.aliasKey.Some? && ctx.aliasKey.value in c.subItemMap ==>
              Alias(ctx, ClsObj(c)) == Success(c.subItemMap[ctx.aliasKey.value])
  {
  }

  /** The code found by codeOf carries that code, and the element found by nameOf
      carries that name: the lookups invert code() and the element's name. This is a
      property of the first-match lookup that stands for the meta's own codeOf and
      nameOf here. */
  lemma LookupsInvert(ctx: Context, classificationName: string, key: string)
    requires classificationName in ctx.provider
    ensures var found := CodeOf(ctx, Some(classificationName), Some(key));
            found.Success? && found.value.Some? ==> Code(ClsObj(found.value.value)) == Success(key)
    ensures var found := NameOf(ctx, classificationName, key);
            found.Success? && found.value.Some? ==> found.value.value.name == key
  {
  }

  /** codeOf reports a null classification name as "elementName"; the intended
      version names the parameter that was null. */
  lemma CodeOfMislabelsNullName(ctx: Context, code: string)
    ensures CodeOf(ctx, None, Some(code)).error.variableName == "elementName"
    ensures IntendedCodeOf(ctx, None, Some(code)).error.variableName == "classificationName"
  {
  }

  /** Apart from the label of that one failure, the intended codeOf answers as the
      written one does. */
  lemma IntendedCodeOfAgrees(ctx: Context, classificationName: Option<string>, code: Option<string>)
    ensures classificationName.Some? ==> IntendedCodeOf(ctx, classificationName, code) == CodeOf(ctx, classificationName, code)
  {
  }
}
