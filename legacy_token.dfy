/** The la:token processor of the Thymeleaf 2 dialect (processor/TokenAttrProcessor.java):
    on a hidden input whose attribute evaluates to "true" in any case it generates the
    token's name and value; any other value generates nothing; the token must exist. */
module LegacyToken {

  import opened Wrappers
  import opened JavaText
  import opened Template
  import Token

  const PROPERTY_ATTRIBUTE_NAME: string := "token"
  const PRECEDENCE: int := 950
  /** The request parameter name the token is posted under (DoubleSubmitManager.TOKEN_KEY). */
  const TOKEN_KEY: string := "lastaflute.action.TRANSACTION_TOKEN"

  /** Each failure is an IllegalStateException; the cases differ in their message. */
  datatype TokenError =
    | NotHiddenType(inputType: Option<string>)
    | NotInputType(tagName: string)
    | SessionTokenMapNotFound
    | GroupTokenNotFound

  /** The notice each exception message opens with. */
  function Notice(e: TokenError): string
  {
    match e
    case NotHiddenType(_) => "Cannot use the token attribute except hidden type."
    case NotInputType(_) => "Cannot use the token attribute except input tag."
    case SessionTokenMapNotFound => "Not found the session token map for the hidden token"
    case GroupTokenNotFound => "Not found the token group for the action type."
  }

  /** The orElseThrow chain over the session's token map: the token for the action
      type, failing when the session has no map or the map no token for it. */
  function SessionToken(sessionTokenMap: Option<map<string, string>>, actionType: string): (r: Result<string, TokenError>)
    ensures sessionTokenMap.None? ==> r == Failure(SessionTokenMapNotFound)
    ensures sessionTokenMap.Some? && actionType !in sessionTokenMap.value ==> r == Failure(GroupTokenNotFound)
    ensures r.Success? <==> sessionTokenMap.Some? && actionType in sessionTokenMap.value
    ensures r.Success? ==> r.value == sessionTokenMap.value[actionType]
  {
    match sessionTokenMap
    case None => Failure(SessionTokenMapNotFound)
    case Some(tokenMap) => if actionType in tokenMap then Success(tokenMap[actionType]) else Failure(GroupTokenNotFound)
  }

  /** getModifiedAttributeValues over the evaluated attribute value (its toString). */
  method ModifiedAttributeValues(tagName: string, attributes: seq<Attribute>, specifiedValue: string,
                                 sessionTokenMap: Option<map<string, string>>, actionType: string)
    returns (r: Result<map<string, string>, TokenError>)
    ensures tagName != "input" ==> r == Failure(NotInputType(tagName))
    ensures tagName == "input" && AttributeValue(attributes, "type") != Some("hidden") ==>
              r == Failure(NotHiddenType(AttributeValue(attributes, "type")))
    ensures tagName == "input" && AttributeValue(attributes, "type") == Some("hidden") ==>
              if !EqualsIgnoreCase(specifiedValue, "true") then r == Success(map[])
              else match SessionToken(sessionTokenMap, actionType)
                case Failure(e) => r == Failure(e)
                case Success(token) => r == Success(map["th:name" := TOKEN_KEY, "th:value" := token])
  {
    var values: map<string, string> := map[];
    if tagName == "input" {
      var inputType := AttributeValue(attributes, "type");
      if inputType != Some("hidden") {
        return Failure(NotHiddenType(inputType));
      }
      if EqualsIgnoreCase(specifiedValue, "true") {
        var token := SessionToken(sessionTokenMap, actionType);
        if token.Failure? {
          return Failure(token.error);
        }
        values := values["th:name" := TOKEN_KEY];
        values := values["th:value" := token.value];
      }
    } else {
      return Failure(NotInputType(tagName));
    }
    r := Success(values);
  }

  /** "true" is recognised whatever the case of its letters. */
  lemma TrueInAnyCase(v: string)
    requires |v| == 4 && (v[0] == 't' || v[0] == 'T') && (v[1] == 'r' || v[1] == 'R')
             && (v[2] == 'u' || v[2] == 'U') && (v[3] == 'e' || v[3] == 'E')
    ensures EqualsIgnoreCase(v, "true")
  {
    forall k | 0 <= k < 4 ensures ToLowerAscii(v[k]) == ToLowerAscii("true"[k]) {
    }
  }

  /** The two generations write the same token wherever this one finds one; where this
      one fails for want of a token, the newer one writes "none". */
  lemma GenerationsAgreeOnToken(sessionTokenMap: Option<map<string, string>>, actionType: string)
    ensures SessionToken(sessionTokenMap, actionType).Success? ==>
              Token.TransactionToken(sessionTokenMap, actionType) == SessionToken(sessionTokenMap, actionType).value
    ensures SessionToken(sessionTokenMap, actionType).Failure? ==>
              Token.TransactionToken(sessionTokenMap, actionType) == Token.NO_TOKEN
  {
  }
}
