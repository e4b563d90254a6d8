/** The la:errors processor (attr/ErrorsAttrProcessor.java): lists the messages of all
    errors, or of one property's errors, in the element, and adds the "errors" style
    to its class list without repeating it. */
module Errors {

  import opened Wrappers
  import opened JavaText
  import opened Template

  const PRECEDENCE: int := 950
  const ATTRIBUTE_NAME: string := "errors"
  /** The class token the processor guarantees on the element. */
  const DEFAULT_STYLE: string := "errors"

  /** The class tokens of a class attribute, split at every space. */
  function ClassTokens(classAttr: string): seq<string>
  {
    SplitList(classAttr, ' ')
  }

  /** prepareOverridingStyle: "errors" alone for a missing or empty class; the class
      as it is when "errors" is one of its tokens; otherwise the class with " errors"
      appended. */
  function OverridingStyle(classAttr: Option<string>): (r: string)
    ensures classAttr.None? || classAttr.value == [] ==> r == DEFAULT_STYLE
    ensures classAttr.Some? && DEFAULT_STYLE in ClassTokens(classAttr.value) ==> r == classAttr.value
    ensures r != []
  {
    if classAttr.Some? && classAttr.value != [] then
      if DEFAULT_STYLE in ClassTokens(classAttr.value) then classAttr.value
      else classAttr.value + " " + DEFAULT_STYLE
    else DEFAULT_STYLE
  }

  /** The th:each of the generated loop: every error for the value "all" in any case,
      the errors of the named property otherwise. */
  function EachValue(specifiedValue: string): (r: string)
    ensures EqualsIgnoreCase(specifiedValue, "all") ==> r == "er : ${errors.all}"
    ensures !EqualsIgnoreCase(specifiedValue, "all") ==> r == "er : ${errors.part('" + specifiedValue + "')}"
  {
    if EqualsIgnoreCase(specifiedValue, "all") then "er : ${errors.all}"
    else "er : ${errors.part('" + specifiedValue + "')}"
  }

  /** getModifiedAttributeValues over the evaluated attribute value. */
  method ModifiedAttributeValues(element: Node, specifiedValue: string) returns (values: map<string, string>)
    ensures values.Keys == {"class", "th:each", "th:text"}
    ensures values["class"] == OverridingStyle(AttributeValue(element.attributes, "class"))
    ensures values["th:each"] == EachValue(specifiedValue)
    ensures values["th:text"] == "${er.message}"
  {
    values := map[];
    values := values["class" := OverridingStyle(AttributeValue(element.attributes, "class"))];
    var eachValue;
    if EqualsIgnoreCase(specifiedValue, "all") {
      eachValue := "er : ${errors.all}";
    } else {
      eachValue := "er : ${errors.part('" + specifiedValue + "')}";
    }
    values := values["th:each" := eachValue];
    values := values["th:text" := "${er.message}"];
  }

  // ---------------------------------------------------------------------------
  // The style merge.

  /** "errors" is a single token. */
  lemma StyleTokens()
    ensures ClassTokens(DEFAULT_STYLE) == [DEFAULT_STYLE]
  {
    SplitListSingle(DEFAULT_STYLE, ' ');
  }

  /** Appending " errors" appends exactly the token "errors" to the class list. */
  lemma AppendedTokens(classAttr: string)
    ensures ClassTokens(classAttr + " " + DEFAULT_STYLE) == ClassTokens(classAttr) + [DEFAULT_STYLE]
  {
    SplitListJoin(classAttr, ' ', DEFAULT_STYLE);
    assert classAttr + " " + DEFAULT_STYLE == classAttr + [' '] + DEFAULT_STYLE;
    StyleTokens();
  }

  /** The merged class always carries the "errors" token. */
  lemma StyleIncluded(classAttr: Option<string>)
    ensures DEFAULT_STYLE in ClassTokens(OverridingStyle(classAttr))
  {
    StyleTokens();
    if classAttr.Some? && classAttr.value != [] && DEFAULT_STYLE !in ClassTokens(classAttr.value) {
      AppendedTokens(classAttr.value);
    }
  }

  /** The author's classes come first and unchanged: the merge only ever appends the
      "errors" token. */
  lemma ClassesKept(classAttr: string)
    requires classAttr != []
    ensures var tokens := ClassTokens(classAttr);
            var merged := ClassTokens(OverridingStyle(Some(classAttr)));
            merged == tokens || merged == tokens + [DEFAULT_STYLE]
  {
    if DEFAULT_STYLE !in ClassTokens(classAttr) {
      AppendedTokens(classAttr);
    }
  }

  /** Merging into an already merged class changes nothing. */
  lemma OverridingStyleIdempotent(classAttr: Option<string>)
    ensures OverridingStyle(Some(OverridingStyle(classAttr))) == OverridingStyle(classAttr)
  {
    StyleIncluded(classAttr);
  }

  /** "all" selects every error whatever the case of its letters. */
  lemma AllInAnyCase(v: string)
    requires |v| == 3 && (v[0] == 'a' || v[0] == 'A') && (v[1] == 'l' || v[1] == 'L') && (v[2] == 'l' || v[2] == 'L')
    ensures EachValue(v) == "er : ${errors.all}"
  {
    forall k | 0 <= k < 3 ensures ToLowerAscii(v[k]) == ToLowerAscii("all"[k]) {
    }
  }
}
