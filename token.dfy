/** The la:token processor of the Thymeleaf 3 dialect (attr/TokenAttrProcessor.java):
    on a hidden input it writes the transaction token of the current action as the
    input's name and value, or removes the input when the attribute's expression is
    not true; anywhere else it fails. */
module Token {

  import opened Wrappers
  import opened Template

  const ATTR_NAME: string := "token"
  const PRECEDENCE: int := 950
  /** The processor removes its own attribute from the element. */
  const REMOVE_ATTRIBUTE: bool := true
  /** The request parameter name the token is posted under (TRANSACTION_TOKEN_KEY). */
  const TRANSACTION_TOKEN_KEY: string := "lastaflute.action.TRANSACTION_TOKEN"
  /** The token written when the session holds none for the action. */
  const NO_TOKEN: string := "none"

  datatype TokenError =
    | TokenNotHiddenType(inputType: Option<string>)   // ThymeleafTokenNotHiddenTypeException
    | TokenNotInputType(tagName: string)              // ThymeleafTokenNotInputTypeException

  /** The notice each exception message opens with. */
  function Notice(e: TokenError): string
  {
    match e
    case TokenNotHiddenType(_) => "Cannot use the token attribute except hidden type."
    case TokenNotInputType(_) => "Cannot use the token attribute except input tag."
  }

  /** prepareTransactionToken: the session's token for the action type, "none" when the
      session has no token map or the map has no token for the action type. */
  function TransactionToken(sessionTokenMap: Option<map<string, string>>, actionType: string): (r: string)
    ensures sessionTokenMap.Some? && actionType in sessionTokenMap.value ==> r == sessionTokenMap.value[actionType]
    ensures sessionTokenMap.None? || actionType !in sessionTokenMap.value ==> r == NO_TOKEN
  {
    match sessionTokenMap
    case None => NO_TOKEN
    case Some(tokenMap) => if actionType in tokenMap then tokenMap[actionType] else NO_TOKEN
  }

  /** The commands the processor gives the host for the element being processed: the
      attributes it sets, and whether it removes the element. */
  class StructureHandler {
    var setAttributes: map<string, string>
    var removed: bool

    constructor()
      ensures setAttributes == map[] && !removed
    {
      setAttributes := map[];
      removed := false;
    }

    method SetAttribute(name: string, value: string)
      modifies this
      ensures setAttributes == old(setAttributes)[name := value] && removed == old(removed)
    {
      setAttributes := setAttributes[name := value];
    }

    method RemoveElement()
      modifies this
      ensures removed && setAttributes == old(setAttributes)
    {
      removed := true;
    }
  }

  /** doProcess: an input of type hidden gets the token key as th:name and the token as
      th:value when the expression evaluated to Boolean true, and is removed for any
      other result; a non-hidden input, or any other tag, fails before the handler is
      touched. */
  method DoProcess(tagName: string, attributes: seq<Attribute>, expressionResult: Value,
                   sessionTokenMap: Option<map<string, string>>, actionType: string,
                   handler: StructureHandler)
    returns (r: Result<(), TokenError>)
    modifies handler
    ensures tagName != "input" ==> r == Failure(TokenNotInputType(tagName))
    ensures tagName == "input" && AttributeValue(attributes, "type") != Some("hidden") ==>
              r == Failure(TokenNotHiddenType(AttributeValue(attributes, "type")))
    ensures r.Failure? ==> handler.setAttributes == old(handler.setAttributes) && handler.removed == old(handler.removed)
    ensures r.Success? <==> tagName == "input" && AttributeValue(attributes, "type") == Some("hidden")
    ensures r.Success? && expressionResult == BoolValue(true) ==>
              && handler.setAttributes == old(handler.setAttributes)[
                   "th:name" := TRANSACTION_TOKEN_KEY][
                   "th:value" := TransactionToken(sessionTokenMap, actionType)]
              && handler.removed == old(handler.removed)
    ensures r.Success? && expressionResult != BoolValue(true) ==>
              handler.removed && handler.setAttributes == old(handler.setAttributes)
  {
    if tagName == "input" {
      var inputType := AttributeValue(attributes, "type");
      if inputType != Some("hidden") {
        return Failure(TokenNotHiddenType(inputType));
      }
      if expressionResult == BoolValue(true) {
        handler.SetAttribute("th:name", TRANSACTION_TOKEN_KEY);
        handler.SetAttribute("th:value", TransactionToken(sessionTokenMap, actionType));
      } else {
        handler.RemoveElement();
      }
      r := Success(());
    } else {
      r := Failure(TokenNotInputType(tagName));
    }
  }

  /** The token written is "none" exactly when the session holds no real token for the
      action: no map, no entry, or an entry that is itself "none". */
  lemma NoTokenWhenMissing(sessionTokenMap: Option<map<string, string>>, actionType: string)
    ensures TransactionToken(sessionTokenMap, actionType) == NO_TOKEN <==>
              sessionTokenMap.None? || actionType !in sessionTokenMap.value
              || sessionTokenMap.value[actionType] == NO_TOKEN
  {
  }

  /** The documented use: a fresh handler on `<input type="hidden" la:token="true"/>`
      ends with exactly the two token attributes and the element kept. */
  method DocumentedHiddenToken(sessionTokenMap: Option<map<string, string>>, actionType: string)
    returns (name: string, value: string, removed: bool)
    ensures name == TRANSACTION_TOKEN_KEY && value == TransactionToken(sessionTokenMap, actionType) && !removed
  {
    var handler := new StructureHandler();
    var r := DoProcess("input", [Attribute("type", "hidden"), Attribute("la:token", "true")], BoolValue(true),
                       sessionTokenMap, actionType, handler);
    assert handler.setAttributes.Keys == {"th:name", "th:value"};
    name := handler.setAttributes["th:name"];
    value := handler.setAttributes["th:value"];
    removed := handler.removed;
  }
}
