# lasta-thymeleaf attribute rewriting, modelled in Dafny

LastaFlute's Thymeleaf dialect adds `la:` attributes to templates. Each processor
turns one such attribute into generated `th:` directives (or, in the Thymeleaf 3
generation, into commands on the element). This project models those processors and
the two expression objects they generate calls to:

- `la:foreach` (module `ForEach`): the standard iteration, plus a form property path
  such as `items[2]` bound on every iterated element.
- `la:property`, in both generations:
  - `Property`, the Thymeleaf 3 generation, builds the field name from the path that
    `la:foreach` left.
  - `LegacyProperty`, the Thymeleaf 2 generation, searches the ancestors for the
    `th:each` that declares the property's leading variable. It emits an expression
    that indexes the list with that loop's status variable.
  - Both build the same "explicit wins" directive table (`Property.BindingTable`), and
    both record the raw property name on a `select` for the options inside it.
- `la:optionCls` (module `OptionCls`): parses `iter, stat : name` or a bare `name`,
  and selects an option when it equals the enclosing select's property.
- `la:errors` (module `Errors`): merges the `errors` class token into the class list
  without repeating it.
- `la:token`, in both generations:
  - `Token`: a Thymeleaf 3 command handler that falls back to the token `none`.
  - `LegacyToken`: a Thymeleaf 2 map that fails when there is no token.
- `#cls` (module `ClassificationExpression`): lists, codes and aliases of
  classifications, including the `name.group` split and the locale alias fallback.
- `#handy` (module `HandyDateExpression`): the argument-type dispatch of `date` and
  `format`.

## Modelling choices

- **Elements and DOM.** `Template.Node` is a class:
  - its tag, attributes and parent are fixed;
  - its node properties and node-local variables are fields the processors assign.
  - A null parent stands for the document. The ancestors are a ghost set, used for
    termination and framing.
- **Failures.** Java exceptions become `Failure` values of a per-module error
  datatype, and nulls become `Option`. Every failure path of the source is a case of
  its own.
- **Expression evaluation.** The host's expression engine is outside the model:
  - attribute values arrive already evaluated, as strings or `Template.Value`;
  - where the processor evaluates a piece it cut itself (`la:optionCls`), the
    evaluator is a function parameter.
- **External components** are values:
  - the session token map, an optional map keyed by action type;
  - the classification provider, a map from names to metas;
  - the alias key for the user's locale, and the template path.
- **HandyDate.** A created HandyDate is the constructor overload chosen together with
  its arguments.
- **Java strings.** `JavaText` models `indexOf`, `lastIndexOf`, `trim` (characters up
  to U+0020), `equalsIgnoreCase` and the splitting of a class attribute.
  - Thymeleaf's `StringUtils.isEmptyOrWhitespace` is `JavaText.IsEmptyOrWhitespace`,
    over Java's whitespace set, which includes spaces above U+0020 that `trim` keeps.
    `Validate.notEmpty` in the `la:optionCls` IterationSpec constructor is taken to be
    that test; Thymeleaf's `Validate` is not part of this model.
  - `equalsIgnoreCase` is modelled on ASCII letters. That is exact for the only
    literals it is compared with ("true", "all"): no other character case-maps onto
    their letters.
- **Where the documentation and the code disagree, the model follows the code:**
  - The `la:optionCls` javadoc (attr/OptionClsAttrProcessor.java:42-46) shows
    `th:each="cdef : ..."` and `th:text="${#cls.alias(status)}"`. The code generates
    `cdef, cdefStat : ...` and `${#cls.alias(cdef)}` (lines 101-108).
  - The `la:token` javadoc (attr/TokenAttrProcessor.java:41) shows `type="text"` after
    processing. The code never touches the type attribute.
- **Legacy resolver.** The Thymeleaf 2 field-name resolver is modelled as written, so
  it keeps the comma of a declared status variable (see Findings).
  `LegacyProperty.IntendedStatusName` is the corrected reading, with its property
  proved.

## Model

| member | source | states |
|---|---|---|
| ForEach.CurrentPropertyName | src/main/java/org/lastaflute/thymeleaf/processor/attr/ForEachAttrProcessor.java:155-169 | nothing for an iterable that is neither a variable nor a selection expression; otherwise the dot-free suffix of the expression that follows its last '.', or the whole expression when it has no '.' |
| ForEach.PropertyPath | src/main/java/org/lastaflute/thymeleaf/processor/attr/ForEachAttrProcessor.java:147-148 | the list's own name at top level, the enclosing item path + "." + the name inside another loop |
| ForEach.IterationSpecOf | src/main/java/org/lastaflute/thymeleaf/processor/attr/ForEachAttrProcessor.java:134-151 | fails exactly when the item variable is null or blank, then exactly when a declared status variable is null or blank, then exactly when an enclosing path local is not a String, and succeeds exactly when none of the three applies; on success it keeps both names and carries a property path exactly for variable and selection iterables, extended under the enclosing path when there is one |
| ForEach.FormPath | src/main/java/org/lastaflute/thymeleaf/processor/attr/ForEachAttrProcessor.java:186 | the form path is the property path, '[', the decimal index and ']' |
| ForEach.StatusVarKey | src/main/java/org/lastaflute/thymeleaf/processor/attr/ForEachAttrProcessor.java:192-196 | the status object is bound under the declared status name, else under item variable + "Stat" |
| ForEach.StatusFor | src/main/java/org/lastaflute/thymeleaf/processor/attr/ForEachAttrProcessor.java:184-191 | index, count = index + 1, size and item; a form path exactly when the spec carries a property path |
| ForEach.BindItem | src/main/java/org/lastaflute/thymeleaf/processor/attr/ForEachAttrProcessor.java:176-198 | the clone's variables after binding: exactly the old keys plus item, status, spec and (for a path-carrying spec) the form path; each bound to its value unless a later binding overwrote it; every other variable unchanged, including an existing form path when the spec carries none |
| ForEach.PrepareItemLocals | src/main/java/org/lastaflute/thymeleaf/processor/attr/ForEachAttrProcessor.java:176-198 | the cloned element's local variables become BindItem of the old ones; its node properties are untouched |
| Property.AfterFirstDot | src/main/java/org/lastaflute/thymeleaf/processor/attr/PropertyAttrProcessor.java:142-147 | the whole name without a '.', otherwise the text after the first '.' (the part before it has none) |
| Property.FieldName | src/main/java/org/lastaflute/thymeleaf/processor/attr/PropertyAttrProcessor.java:139-152 | the name unchanged without a form path in scope; path + "." + the name after its first dot with one; a failure exactly when the path local is not a String |
| Property.BindingDirectives | src/main/java/org/lastaflute/thymeleaf/processor/attr/PropertyAttrProcessor.java:101-134 | the directive table: th:name for input, select and textarea; th:value = ${prop} for inputs other than checkbox and radio; th:text for everything but input and select; th:classappend, or else th:attrappend; each only when the author did not write it |
| Property.ModifiedAttributeValues | src/main/java/org/lastaflute/thymeleaf/processor/attr/PropertyAttrProcessor.java:80-137 | fails exactly when the field name does; otherwise the directive table over the field name with the errors.exists style; a select records the raw property name as la:selectPropertyName and nothing else changes |
| Property.TopLevelSpec | src/main/java/org/lastaflute/thymeleaf/processor/attr/ForEachAttrProcessor.java:134-151 | a word item variable over `${list}` outside any loop is accepted, with the list's last segment as property path |
| Property.ItemFormPathBound | src/main/java/org/lastaflute/thymeleaf/processor/attr/ForEachAttrProcessor.java:183-188 | binding an item of a path-carrying spec puts `path[index]` under the form path variable |
| Property.ItemPropertyFieldName | src/main/java/org/lastaflute/thymeleaf/processor/attr/PropertyAttrProcessor.java:140-148 | with form path P in scope, the property `item.rest` names the field P + "." + rest |
| Property.ForEachItemFieldName | src/main/java/org/lastaflute/thymeleaf/processor/attr/ForEachAttrProcessor.java:54-61 | inside a top-level loop over path p, the property `item.rest` names the field `p[index].rest` for every item index |
| Property.DocumentedForEachSpec | src/main/java/org/lastaflute/thymeleaf/processor/attr/ForEachAttrProcessor.java:38 | `item : ${items}` declares item over the property path "items" |
| LegacyProperty.Declaration | src/main/java/org/lastaflute/thymeleaf/processor/PropertyAttrProcessor.java:183-184 | the text before the first ':'; a failure (the substring throws) exactly when there is no ':' |
| LegacyProperty.DeclaredName | src/main/java/org/lastaflute/thymeleaf/processor/PropertyAttrProcessor.java:185-189 | the declared iteration variable is trimmed |
| LegacyProperty.ProdName | src/main/java/org/lastaflute/thymeleaf/processor/PropertyAttrProcessor.java:179-190 | fails exactly on a value without ':'; otherwise a trimmed name without ':' |
| LegacyProperty.ProdStatusName | src/main/java/org/lastaflute/thymeleaf/processor/PropertyAttrProcessor.java:192-203 | as written: fails exactly on a value without ':' |
| LegacyProperty.IntendedStatusName | src/main/java/org/lastaflute/thymeleaf/processor/PropertyAttrProcessor.java:192-203 | corrected: fails exactly on a value without ':'; its values are pinned down by ParseWithStatus |
| LegacyProperty.ExpressionPropertyName | src/main/java/org/lastaflute/thymeleaf/processor/PropertyAttrProcessor.java:205-217 | a name exactly when the trimmed iterated side matches `${[a-zA-Z_0-9.]+}`, and then that side is `${` + name + `}` |
| LegacyProperty.ListName | src/main/java/org/lastaflute/thymeleaf/processor/PropertyAttrProcessor.java:137-144 | the loop variable when the iterated side is no path; the path when it has no '.' after its first character; otherwise its last dot-free segment |
| LegacyProperty.ScanEach | src/main/java/org/lastaflute/thymeleaf/processor/PropertyAttrProcessor.java:162-171 | nothing exactly when every attribute is passed over; a found value is a th:each declaring the name and holding ':' |
| LegacyProperty.ScanEachFound | src/main/java/org/lastaflute/thymeleaf/processor/PropertyAttrProcessor.java:164-168 | a found value is the first th:each declaring the name: it is in the list, and everything before it is passed over |
| LegacyProperty.ScanEachFailure | src/main/java/org/lastaflute/thymeleaf/processor/PropertyAttrProcessor.java:164-166 | a scan fails only on a th:each without ':' that comes before any declaration of the name |
| LegacyProperty.EachSearch | src/main/java/org/lastaflute/thymeleaf/processor/PropertyAttrProcessor.java:152-177 | nothing for the root element; nothing exactly when no ancestor's `th:each` declares the name; otherwise the outcome is the scan of an ancestor with no nearer ancestor declaring it; a found value declares the name |
| LegacyProperty.EachSearchFindsNearest | src/main/java/org/lastaflute/thymeleaf/processor/PropertyAttrProcessor.java:152-177 | the search returns the scan of the nearest ancestor whose scan finds something, whatever farther ancestors declare |
| LegacyProperty.ParentEachValue | src/main/java/org/lastaflute/thymeleaf/processor/PropertyAttrProcessor.java:152-177 | the loop over the parent's attributes and the recursion up the ancestors compute EachSearch |
| LegacyProperty.ResolvedFieldName | src/main/java/org/lastaflute/thymeleaf/processor/PropertyAttrProcessor.java:132-147 | the name unchanged when no loop declares its leading variable; a failure exactly when the search failed (the found case is stated by ResolvedThroughAncestor) |
| LegacyProperty.FieldName | src/main/java/org/lastaflute/thymeleaf/processor/PropertyAttrProcessor.java:128-150 | a name without a '.' after its first character, or at the root element, is its own field name |
| LegacyProperty.PropertyFieldName | src/main/java/org/lastaflute/thymeleaf/processor/PropertyAttrProcessor.java:128-150 | the method computes FieldName |
| LegacyProperty.ModifiedAttributeValues | src/main/java/org/lastaflute/thymeleaf/processor/PropertyAttrProcessor.java:68-126 | fails exactly when the field name does; otherwise the same directive table as the newer processor with the errors.hasMessageOf style; a select records the raw property name |
| LegacyProperty.DeclarationOf | src/main/java/org/lastaflute/thymeleaf/processor/PropertyAttrProcessor.java:183-184 | the declaration of `prod:rhs` is prod when prod has no ':' |
| LegacyProperty.DeclaredWithoutComma | src/main/java/org/lastaflute/thymeleaf/processor/PropertyAttrProcessor.java:185-202 | without a comma: the trimmed declaration, and its + "Stat" status name in both readings |
| LegacyProperty.DeclaredWithComma | src/main/java/org/lastaflute/thymeleaf/processor/PropertyAttrProcessor.java:185-201 | with a comma after the first character: the trimmed left side; as written the status is the right side trimmed with the comma kept, as intended without it |
| LegacyProperty.ParseWithoutStatus | src/main/java/org/lastaflute/thymeleaf/processor/PropertyAttrProcessor.java:179-203 | `iter : rhs`, blank-padded, declares iter with status iter + "Stat" |
| LegacyProperty.ParseWithStatus | src/main/java/org/lastaflute/thymeleaf/processor/PropertyAttrProcessor.java:179-203 | `iter, stat : rhs` declares iter; as written its status is "," + blanks + stat, as intended it is stat |
| LegacyProperty.StatusNameKeepsComma | src/main/java/org/lastaflute/thymeleaf/processor/PropertyAttrProcessor.java:192-203 | on `item, st : ${items}` the written status name is ", st" and the intended one is "st" |
| LegacyProperty.IteratedExpressionOf | src/main/java/org/lastaflute/thymeleaf/processor/PropertyAttrProcessor.java:209-210 | the iterated side of `lhs:rest` is rest trimmed |
| LegacyProperty.PathExpressionOf | src/main/java/org/lastaflute/thymeleaf/processor/PropertyAttrProcessor.java:211-214 | `${path}` matches the pattern with path as its group |
| LegacyProperty.ParsePathExpression | src/main/java/org/lastaflute/thymeleaf/processor/PropertyAttrProcessor.java:205-217 | a blank-padded `${path}` after the ':' gives path |
| LegacyProperty.PropertyNameOfPathExpression | src/main/java/org/lastaflute/thymeleaf/processor/PropertyAttrProcessor.java:205-217 | an iterated side `${path}` gives path |
| LegacyProperty.ListNameOfDottedPath | src/main/java/org/lastaflute/thymeleaf/processor/PropertyAttrProcessor.java:139-140 | the list name of `owner.list` is list |
| LegacyProperty.DottedName | src/main/java/org/lastaflute/thymeleaf/processor/PropertyAttrProcessor.java:129-130 | `iter.rest` has leading variable iter and next name rest |
| LegacyProperty.ParseIteration | src/main/java/org/lastaflute/thymeleaf/processor/PropertyAttrProcessor.java:179-217 | `iter : ${owner.list}` declares iter with status iter + "Stat" over the path owner.list |
| LegacyProperty.ResolvedThroughAncestor | src/main/java/org/lastaflute/thymeleaf/processor/PropertyAttrProcessor.java:128-150 | for any element and any non-empty trimmed variable `iter` without a '.' whose ancestor search finds the loop declaration v, the property `iter.rest` names `'<list>[' + ${<status>.index} + '].rest'`, with list and status parsed from v |
| LegacyProperty.ParseIterationWithStatus | src/main/java/org/lastaflute/thymeleaf/processor/PropertyAttrProcessor.java:179-217 | for `iter, stat : ${owner.list}` with blanks around each part, the produced name is iter, the status name keeps the comma (`, stat`) and the list name is list |
| LegacyProperty.ResolvedThroughGrandparentWithStatus | src/main/java/org/lastaflute/thymeleaf/processor/PropertyAttrProcessor.java:128-203 | under a grandparent with `th:each="iter, stat : ${owner.list}"` and a parent that does not declare iter, the property `iter.rest` names the field `list` indexed through the status name `, stat`, comma kept as the source computes it (see Findings) |
| LegacyProperty.ResolvedThroughParent | src/main/java/org/lastaflute/thymeleaf/processor/PropertyAttrProcessor.java:128-177 | under a parent with `th:each="iter : ${owner.list}"`, the property `iter.rest` names the field `'list[' + ${iterStat.index} + '].rest'` |
| OptionCls.IterationSpecOf | src/main/java/org/lastaflute/thymeleaf/processor/attr/OptionClsAttrProcessor.java:143-189 | without ':' the spec is (cdef, cdefStat, the evaluated value); with one, the classification is the evaluated trimmed text after it; with one, the names are the declaration's split of the trimmed text before it, and the spec succeeds exactly when that variable is neither empty nor all whitespace (Validate.notEmpty, with Thymeleaf's Java whitespace set); a successful variable is non-empty, trimmed and free of ',' and ':' |
| OptionCls.DeclaredVars | src/main/java/org/lastaflute/thymeleaf/processor/attr/OptionClsAttrProcessor.java:161-170 | without a comma, the declaration and it + "Stat"; with one, the trimmed texts before and after the first comma; the variable never holds a ',' and is trimmed when the declaration is |
| OptionCls.ParentSelectPropertyName | src/main/java/org/lastaflute/thymeleaf/processor/attr/OptionClsAttrProcessor.java:118-126 | an element carrying the property gives it; otherwise the nearest node of the lineage that carries it or is a select decides; a failure (the cast past the root) exactly when no such node exists |
| OptionCls.ParentSelectStopsAtNearest | src/main/java/org/lastaflute/thymeleaf/processor/attr/OptionClsAttrProcessor.java:118-126 | a success is decided by the nearest node of the lineage that carries the property or is a select: no nearer node does either |
| OptionCls.ModifiedAttributeValues | src/main/java/org/lastaflute/thymeleaf/processor/attr/OptionClsAttrProcessor.java:97-116 | fails exactly when the spec or the select search fails; otherwise th:each over `#cls.listAll`, th:value and th:text through the item variable, th:selected against the select's property, each only when not written by the author |
| OptionCls.DirectiveValues | src/main/java/org/lastaflute/thymeleaf/processor/attr/OptionClsAttrProcessor.java:100-115 | for a parsed spec, fails exactly when the select search (run only without an authored th:selected) fails; otherwise exactly the directive table, each directive present exactly when the author did not write it |
| OptionCls.ParseWithoutStatus | src/main/java/org/lastaflute/thymeleaf/processor/attr/OptionClsAttrProcessor.java:161-166 | `iter : rhs` parses to iter with status iter + "Stat" over the evaluated trimmed rhs |
| OptionCls.ParseWithStatus | src/main/java/org/lastaflute/thymeleaf/processor/attr/OptionClsAttrProcessor.java:161-170 | `iter , stat : rhs` parses to iter and stat |
| OptionCls.CommaSplit | src/main/java/org/lastaflute/thymeleaf/processor/attr/OptionClsAttrProcessor.java:164-169 | the declaration splits at its comma into the trimmed iter and stat |
| OptionCls.BlankIterVarRejected | src/main/java/org/lastaflute/thymeleaf/processor/attr/OptionClsAttrProcessor.java:186-189 | a blank iteration variable fails validation, with or without a status variable |
| OptionCls.WhitespaceIterVarRejected | src/main/java/org/lastaflute/thymeleaf/processor/attr/OptionClsAttrProcessor.java:186-189 | a variable of ideographic spaces, which `trim` keeps, still fails validation |
| OptionCls.DefaultIteration | src/main/java/org/lastaflute/thymeleaf/processor/attr/OptionClsAttrProcessor.java:151-158 | a value without ':' iterates as cdef with status cdefStat |
| OptionCls.DocumentedSelect | src/main/java/org/lastaflute/thymeleaf/processor/attr/OptionClsAttrProcessor.java:37-46 | an option in a select whose la:property has run gets exactly th:each, th:value, th:text and th:selected, with the select's property in th:selected |
| OptionCls.OptionInPropertySelect | src/main/java/org/lastaflute/thymeleaf/processor/attr/PropertyAttrProcessor.java:113-117 | after la:property has run on a select, an option inside it finds the select's property name |
| Errors.OverridingStyle | src/main/java/org/lastaflute/thymeleaf/processor/attr/ErrorsAttrProcessor.java:88-102 | "errors" for a missing or empty class; the class unchanged when it holds the token; never empty |
| Errors.EachValue | src/main/java/org/lastaflute/thymeleaf/processor/attr/ErrorsAttrProcessor.java:69-74 | all errors for "all" in any case, the named property's errors otherwise |
| Errors.ModifiedAttributeValues | src/main/java/org/lastaflute/thymeleaf/processor/attr/ErrorsAttrProcessor.java:64-78 | exactly class, th:each and th:text, with the merged style, the each value and `${er.message}` |
| Errors.AppendedTokens | src/main/java/org/lastaflute/thymeleaf/processor/attr/ErrorsAttrProcessor.java:96 | appending " errors" appends exactly the token "errors" |
| Errors.StyleIncluded | src/main/java/org/lastaflute/thymeleaf/processor/attr/ErrorsAttrProcessor.java:88-102 | the merged class always holds the "errors" token |
| Errors.ClassesKept | src/main/java/org/lastaflute/thymeleaf/processor/attr/ErrorsAttrProcessor.java:92-97 | the author's tokens are kept in order; at most "errors" is appended |
| Errors.OverridingStyleIdempotent | src/main/java/org/lastaflute/thymeleaf/processor/attr/ErrorsAttrProcessor.java:88-102 | merging twice gives what merging once gives |
| Errors.AllInAnyCase | src/main/java/org/lastaflute/thymeleaf/processor/attr/ErrorsAttrProcessor.java:70-71 | every case variant of "all" lists all errors |
| Token.TransactionToken | src/main/java/org/lastaflute/thymeleaf/processor/attr/TokenAttrProcessor.java:83-99 | the session's token for the action type, "none" without a map or an entry |
| Token.StructureHandler.SetAttribute | src/main/java/org/lastaflute/thymeleaf/processor/attr/TokenAttrProcessor.java:72-73 | sets one attribute and keeps the element |
| Token.StructureHandler.RemoveElement | src/main/java/org/lastaflute/thymeleaf/processor/attr/TokenAttrProcessor.java:75 | marks the element removed and sets nothing |
| Token.DoProcess | src/main/java/org/lastaflute/thymeleaf/processor/attr/TokenAttrProcessor.java:61-81 | fails for a non-input tag and for a non-hidden input, touching nothing; a hidden input gets th:name and th:value when the result is Boolean true and is removed otherwise |
| Token.NoTokenWhenMissing | src/main/java/org/lastaflute/thymeleaf/processor/attr/TokenAttrProcessor.java:84-86 | the token is "none" exactly when there is no map, no entry, or an entry "none" |
| Token.DocumentedHiddenToken | src/main/java/org/lastaflute/thymeleaf/processor/attr/TokenAttrProcessor.java:38-41 | `<input type="hidden" la:token="true"/>` gets the token key and the token, and is kept |
| LegacyToken.SessionToken | src/main/java/org/lastaflute/thymeleaf/processor/TokenAttrProcessor.java:82-87 | the token for the action type; the map missing fails first, then the entry missing |
| LegacyToken.ModifiedAttributeValues | src/main/java/org/lastaflute/thymeleaf/processor/TokenAttrProcessor.java:67-96 | fails for a non-input tag and a non-hidden input; an empty map unless the value is "true" in any case; then the token's two entries, or the token failure |
| LegacyToken.TrueInAnyCase | src/main/java/org/lastaflute/thymeleaf/processor/TokenAttrProcessor.java:80 | every case variant of "true" is recognised |
| LegacyToken.GenerationsAgreeOnToken | src/main/java/org/lastaflute/thymeleaf/processor/TokenAttrProcessor.java:82-87 | where the older generation finds a token the newer writes the same one; where it fails the newer writes "none" |
| ClassificationExpression.Find | src/main/java/org/lastaflute/thymeleaf/processor/expression/ClassificationExpressionProcessor.java:196-214 | the meta's codeOf and nameOf: nothing exactly when no element has the code (the name); a found element is in the list and has it |
| ClassificationExpression.FindIsFirst | src/main/java/org/lastaflute/thymeleaf/processor/expression/ClassificationExpressionProcessor.java:196-214 | a found element is the first element of the list that has the code (the name) |
| ClassificationExpression.ArgumentNotNull | src/main/java/org/lastaflute/thymeleaf/processor/expression/ClassificationExpressionProcessor.java:325-332 | the value when present; an IllegalArgumentException naming the variable when null |
| ClassificationExpression.CanBeClassification | src/main/java/org/lastaflute/thymeleaf/processor/expression/ClassificationExpressionProcessor.java:292-306 | succeeds exactly for a classification; any other object fails naming its type |
| ClassificationExpression.ProvideMeta | src/main/java/org/lastaflute/thymeleaf/processor/expression/ClassificationExpressionProcessor.java:254-276 | the provider's meta exactly when it knows the name; otherwise the not-found failure with template path, calling expression and name |
| ClassificationExpression.FindAlias | src/main/java/org/lastaflute/thymeleaf/processor/expression/ClassificationExpressionProcessor.java:240-248 | the sub-item under the locale's alias key when there is a key and the sub-item exists, the plain alias otherwise |
| ClassificationExpression.List | src/main/java/org/lastaflute/thymeleaf/processor/expression/ClassificationExpressionProcessor.java:83-107 | null fails as an illegal argument; a group failure only for a name with '.'; a group result is never empty |
| ClassificationExpression.ListAll | src/main/java/org/lastaflute/thymeleaf/processor/expression/ClassificationExpressionProcessor.java:117-122 | null fails; succeeds exactly when the provider knows the name, with all its elements |
| ClassificationExpression.Alias | src/main/java/org/lastaflute/thymeleaf/processor/expression/ClassificationExpressionProcessor.java:132-136 | null fails as an illegal argument, a non-classification as a processing error; otherwise the locale alias |
| ClassificationExpression.Code | src/main/java/org/lastaflute/thymeleaf/processor/expression/ClassificationExpressionProcessor.java:164-168 | null fails as an illegal argument, a non-classification as a processing error; otherwise its code |
| ClassificationExpression.CodeByName | src/main/java/org/lastaflute/thymeleaf/processor/expression/ClassificationExpressionProcessor.java:176-185 | null names fail in parameter order; a result is the code of an element of that name; the by-name failure means no element has the name |
| ClassificationExpression.NameOf | src/main/java/org/lastaflute/thymeleaf/processor/expression/ClassificationExpressionProcessor.java:210-214 | succeeds exactly when the classification exists, with the first element of that name or nothing; otherwise the not-found failure naming `nameOf(...)` |
| ClassificationExpression.CodeOf | src/main/java/org/lastaflute/thymeleaf/processor/expression/ClassificationExpressionProcessor.java:196-202 | as written: a null classification name is reported as 'elementName'; a null code as 'code'; succeeds exactly when both are given and the classification exists, with the element of that code or nothing |
| ClassificationExpression.IntendedCodeOf | src/main/java/org/lastaflute/thymeleaf/processor/expression/ClassificationExpressionProcessor.java:196-202 | corrected: each null argument is reported under its own name; otherwise as CodeOf |
| ClassificationExpression.ListWithoutGroup | src/main/java/org/lastaflute/thymeleaf/processor/expression/ClassificationExpressionProcessor.java:104-122 | without '.', list succeeds exactly when listAll does, with the same elements; their failures differ only in the expression named |
| ClassificationExpression.ListOfGroup | src/main/java/org/lastaflute/thymeleaf/processor/expression/ClassificationExpressionProcessor.java:88-103 | `pure.group` is cut at the first '.': unknown pure fails not-found, an empty group fails group-not-found, otherwise the group's elements |
| ClassificationExpression.CodeByNameIsCodeOfFound | src/main/java/org/lastaflute/thymeleaf/processor/expression/ClassificationExpressionProcessor.java:176-185 | code(name, element) is code() of the element nameOf finds, and the by-name failure exactly when it finds none |
| ClassificationExpression.AliasInLocale | src/main/java/org/lastaflute/thymeleaf/processor/expression/ClassificationExpressionProcessor.java:240-244 | without an alias key the plain alias; with one, the element's sub-item under it |
| ClassificationExpression.LookupsInvert | src/main/java/org/lastaflute/thymeleaf/processor/expression/ClassificationExpressionProcessor.java:196-214 | code() of what codeOf finds is the code looked up; what nameOf finds carries the name looked up |
| ClassificationExpression.CodeOfMislabelsNullName | src/main/java/org/lastaflute/thymeleaf/processor/expression/ClassificationExpressionProcessor.java:197 | a null classification name is reported as 'elementName' as written and as 'classificationName' as intended |
| ClassificationExpression.IntendedCodeOfAgrees | src/main/java/org/lastaflute/thymeleaf/processor/expression/ClassificationExpressionProcessor.java:196-202 | with a classification name given, the corrected codeOf answers as the written one |
| HandyDateExpression.Date1 | src/main/java/org/lastaflute/thymeleaf/processor/expression/HandyDateExpressionProcessor.java:64-79 | succeeds exactly for LocalDate, LocalDateTime, Date and String, creating a HandyDate from exactly that argument through a fitting constructor; otherwise the one-argument message |
| HandyDateExpression.Date2 | src/main/java/org/lastaflute/thymeleaf/processor/expression/HandyDateExpressionProcessor.java:87-111 | with a TimeZone, succeeds exactly for LocalDate, LocalDateTime and String; with a String pattern, exactly for a String; any other second argument fails; each failure has its message |
| HandyDateExpression.Date3 | src/main/java/org/lastaflute/thymeleaf/processor/expression/HandyDateExpressionProcessor.java:120-134 | String, String, Locale checked in order, the first misfit deciding the message; succeeds exactly when all fit |
| HandyDateExpression.Date4 | src/main/java/org/lastaflute/thymeleaf/processor/expression/HandyDateExpressionProcessor.java:144-162 | String, TimeZone, String, Locale checked in order, the first misfit deciding the message; succeeds exactly when all fit |
| HandyDateExpression.Format2 | src/main/java/org/lastaflute/thymeleaf/processor/expression/HandyDateExpressionProcessor.java:187-209 | a non-String pattern fails even for a null expression; a null expression gives null; a result displays a HandyDate created from the expression with the pattern |
| HandyDateExpression.Format1 | src/main/java/org/lastaflute/thymeleaf/processor/expression/HandyDateExpressionProcessor.java:173-179 | null for null; a result displays the expression's HandyDate with "yyyy-MM-dd" |
| HandyDateExpression.CreationRecordsArguments | src/main/java/org/lastaflute/thymeleaf/processor/expression/HandyDateExpressionProcessor.java:214-236 | two one-argument dates that give the same HandyDate had the same argument |
| HandyDateExpression.FormatIsDisplayedDate | src/main/java/org/lastaflute/thymeleaf/processor/expression/HandyDateExpressionProcessor.java:187-205 | format(x, p) of a non-null x succeeds exactly when date(x) does, and is date(x) displayed with p |
| HandyDateExpression.FormatDefaultsPattern | src/main/java/org/lastaflute/thymeleaf/processor/expression/HandyDateExpressionProcessor.java:173-179 | format(x) is format(x, "yyyy-MM-dd") |
| HandyDateExpression.DateRefusedWithZone | src/main/java/org/lastaflute/thymeleaf/processor/expression/HandyDateExpressionProcessor.java:71-100 | a Date is taken alone but refused together with a TimeZone |

## Left out

- Thymeleaf expression parsing and evaluation are not modelled. This covers `parseExpression(...).execute(...)`, `EachUtils.parseEach` and the Thymeleaf 3 expression result. Values arrive evaluated, and the `la:optionCls` evaluator is a parameter.
- The iteration itself is not modelled: cloning the host element once per item and evaluating the iterable belong to the host's iteration processor. Only the per-item binding is modelled.
- HandyDate's parsing, formatting and arithmetic are not modelled, and neither are the `java.time` and `java.util` values. A HandyDate is a constructor tag with its arguments, and `toDisp` is a value holding the pattern.
- The classification meta, the classification provider, the double-submit manager, the action runtime and the component container are values passed in. Their own behaviour is not part of this model, which covers:
  - how DBFlute's `codeOf` and `nameOf` handle sister codes: they are modelled as first-match lookups;
  - how the provider derives the alias key from the locale.
- Exception messages beyond the notice are not modelled. The "Advice", "Action" and similar items come from an external message builder. Messages thrown as plain strings are kept exactly.
- ClassificationExpression.NameOf: a null classification name or element name is not modelled. The source does not check them, and what follows depends on the provider.
- ClassificationExpression.FindAlias: a sub-item that is not a String is not modelled. The cast would throw; sub-items are modelled as strings.
- Processor registration and ordering are not modelled. The host orders processors by the precedence constants, which are kept as plain constants.
- Errors.ClassTokens: the splitting of the class attribute is modelled as cutting at every space with empty pieces kept. `Srl.splitList` is not part of this model. Whether the class holds the token "errors" is the same for any treatment of empty pieces.
- LegacyToken.TOKEN_KEY: `DoubleSubmitManager.TOKEN_KEY` is not part of this model. Its value is taken from the Thymeleaf 3 processor's documented output (attr/TokenAttrProcessor.java:41).
- Property.ForEachItemFieldName: the documented `items[0].quantity` example is stated for every index and path, not for the literal HTML.
- An element whose parent is neither an element nor the document (a detached subtree) is not modelled.
- The `la:optionCls` javadoc's generated output is not modelled, because the code generates different directives from it; its markup is modelled, in OptionCls.DocumentedSelect.
- Attribute names and values are non-null strings in this model. The legacy search's skipping of null attributes (PropertyAttrProcessor.java:164-166) and the null produced name for a null value (PropertyAttrProcessor.java:180-181) are not modelled.

## Findings

| source | as written | input that shows it | evidently intended | confidence | as-written member | corrected member |
|---|---|---|---|---|---|---|
| src/main/java/org/lastaflute/thymeleaf/processor/PropertyAttrProcessor.java:199-200 | the status variable of a `th:each` declaration is `prod.substring(statusProd).trim()`, which keeps the comma | `th:each="item, st : ${items}"` makes the status variable ", st", so the field name becomes `'items[' + ${, st.index} + '].name'` | `prod.substring(statusProd + 1).trim()`, giving "st" | medium, not executed | LegacyProperty.StatusNameKeepsComma | LegacyProperty.IntendedStatusName |
| src/main/java/org/lastaflute/thymeleaf/processor/expression/ClassificationExpressionProcessor.java:197 | `codeOf` checks its classification name under the variable name "elementName" | `codeOf(null, 'FML')` fails with "The argument 'elementName' should not be null." | the check names "classificationName", as the other methods do for the same parameter | high, not executed | ClassificationExpression.CodeOfMislabelsNullName | ClassificationExpression.IntendedCodeOf |
