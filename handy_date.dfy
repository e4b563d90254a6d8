/** The #handy expression object (expression/HandyDateExpressionProcessor.java): picks
    the HandyDate constructor that fits the run-time types of its arguments, or fails
    with a message naming the argument that does not fit, and formats a date with a
    pattern. HandyDate itself is not modelled: a created HandyDate is the constructor
    overload chosen and the arguments handed to it, and a formatted date is the
    HandyDate and the pattern it is displayed with. */
module HandyDateExpression {

  import opened Wrappers

  /** The pattern format uses when none is given (the one HTML date inputs use). */
  const DEFAULT_DATE_FORMAT_PATTERN: string := "yyyy-MM-dd"

  /** An argument of static type Object, by the run-time class the dispatch tests; the
      values of the java.time and java.util types are opaque. */
  datatype Arg =
    | NullArg
    | LocalDateArg(localDate: int)
    | LocalDateTimeArg(localDateTime: int)
    | DateArg(date: int)
    | StringArg(text: string)
    | TimeZoneArg(zone: int)
    | LocaleArg(locale: int)
    | OtherArg(typeName: string)

  /** The parameter types of the HandyDate constructors. */
  datatype Kind = LocalDateKind | LocalDateTimeKind | DateKind | StringKind | TimeZoneKind | LocaleKind

  /** The HandyDate constructor overloads the processor calls. */
  datatype Overload =
    | OfLocalDate | OfLocalDateInZone | OfLocalDateTime | OfLocalDateTimeInZone | OfDate
    | OfString | OfStringInZone | OfStringWithPattern | OfStringWithPatternInLocale
    | OfStringInZoneWithPatternInLocale

  /** A created HandyDate: the overload called and its arguments, in order. */
  datatype HandyDate = HandyDate(overload: Overload, args: seq<Arg>)

  /** toDisp: a HandyDate displayed with a pattern. */
  datatype Display = Display(date: HandyDate, pattern: string)

  const DATE1_MESSAGE: string :=
    "First argument as one argument should be LocalDate or LocalDateTime or Date or String(expression)."
  const DATE2_ZONE_MESSAGE: string :=
    "First argument as two arguments should be LocalDate or LocalDateTime or String(expression) when second argument is TimeZone."
  const DATE2_PATTERN_MESSAGE: string :=
    "First argument as two arguments should be String when second argument is String(pattern)."
  const DATE2_SECOND_MESSAGE: string := "Second argument as two arguments should be TimeZone or String(pattern)."
  const DATE3_FIRST_MESSAGE: string := "First argument as three arguments should be String(expression)."
  const DATE3_SECOND_MESSAGE: string := "Second argument as three arguments should be TimeZone or String(pattern)."
  const DATE3_THIRD_MESSAGE: string := "Third argument as three arguments should be Locale."
  const DATE4_FIRST_MESSAGE: string := "First argument as four arguments should be String(expression)."
  const DATE4_SECOND_MESSAGE: string := "Second argument as four arguments should be TimeZone."
  const DATE4_THIRD_MESSAGE: string := "Third argument as four arguments should be TimeZone or String(pattern)."
  const DATE4_FOURTH_MESSAGE: string := "Fourth argument as four arguments should be Locale."
  const FORMAT_FIRST_MESSAGE: string :=
    "First argument as two arguments should be LocalDate or LocalDateTime or Date or String(expression)."
  const FORMAT_SECOND_MESSAGE: string := "Second argument as two arguments should be String(pattern)."

  /** The parameter a value can be passed as; null and other objects fit none. */
  function KindOf(a: Arg): Option<Kind>
  {
    match a
    case NullArg => None
    case LocalDateArg(_) => Some(LocalDateKind)
    case LocalDateTimeArg(_) => Some(LocalDateTimeKind)
    case DateArg(_) => Some(DateKind)
    case StringArg(_) => Some(StringKind)
    case TimeZoneArg(_) => Some(TimeZoneKind)
    case LocaleArg(_) => Some(LocaleKind)
    case OtherArg(_) => None
  }

  /** The parameter list of each constructor overload. */
  function ParameterKinds(o: Overload): seq<Kind>
  {
    match o
    case OfLocalDate => [LocalDateKind]
    case OfLocalDateInZone => [LocalDateKind, TimeZoneKind]
    case OfLocalDateTime => [LocalDateTimeKind]
    case OfLocalDateTimeInZone => [LocalDateTimeKind, TimeZoneKind]
    case OfDate => [DateKind]
    case OfString => [StringKind]
    case OfStringInZone => [StringKind, TimeZoneKind]
    case OfStringWithPattern => [StringKind, StringKind]
    case OfStringWithPatternInLocale => [StringKind, StringKind, LocaleKind]
    case OfStringInZoneWithPatternInLocale => [StringKind, TimeZoneKind, StringKind, LocaleKind]
  }

  /** The HandyDate was made by a constructor whose parameters its arguments fit. */
  predicate WellTyped(h: HandyDate)
  {
    |h.args| == |ParameterKinds(h.overload)|
    && forall i :: 0 <= i < |h.args| ==> KindOf(h.args[i]) == Some(ParameterKinds(h.overload)[i])
  }

  /** The HandyDate was made, by a fitting constructor, from exactly these arguments. */
  predicate CreatedFrom(h: HandyDate, args: seq<Arg>)
  {
    WellTyped(h) && h.args == args
  }

  // ---------------------------------------------------------------------------
  // date(...)

  /** date(Object): a LocalDate, LocalDateTime, Date or String, tested in that order. */
  function Date1(expression: Arg): (r: Result<HandyDate, string>)
    ensures r.Success? <==> expression.LocalDateArg? || expression.LocalDateTimeArg? || expression.DateArg? || expression.StringArg?
    ensures r.Success? ==> CreatedFrom(r.value, [expression])
    ensures r.Failure? ==> r.error == DATE1_MESSAGE
  {
    if expression.LocalDateArg? then Success(HandyDate(OfLocalDate, [expression]))
    else if expression.LocalDateTimeArg? then Success(HandyDate(OfLocalDateTime, [expression]))
    else if expression.DateArg? then Success(HandyDate(OfDate, [expression]))
    else if expression.StringArg? then Success(HandyDate(OfString, [expression]))
    else Failure(DATE1_MESSAGE)
  }

  /** date(Object, Object): the second argument decides. With a TimeZone the first may
      be a LocalDate, LocalDateTime or String (a Date is refused); with a String
      pattern the first must be a String; any other second argument fails. */
  function Date2(expression: Arg, arg2: Arg): (r: Result<HandyDate, string>)
    ensures arg2.TimeZoneArg? ==>
              (r.Success? <==> expression.LocalDateArg? || expression.LocalDateTimeArg? || expression.StringArg?)
    ensures arg2.TimeZoneArg? && r.Failure? ==> r.error == DATE2_ZONE_MESSAGE
    ensures arg2.StringArg? ==> (r.Success? <==> expression.StringArg?)
    ensures arg2.StringArg? && r.Failure? ==> r.error == DATE2_PATTERN_MESSAGE
    ensures !arg2.TimeZoneArg? && !arg2.StringArg? ==> r == Failure(DATE2_SECOND_MESSAGE)
    ensures r.Success? ==> CreatedFrom(r.value, [expression, arg2])
  {
    if arg2.TimeZoneArg? then
      if expression.LocalDateArg? then Success(HandyDate(OfLocalDateInZone, [expression, arg2]))
      else if expression.LocalDateTimeArg? then Success(HandyDate(OfLocalDateTimeInZone, [expression, arg2]))
      else if expression.StringArg? then Success(HandyDate(OfStringInZone, [expression, arg2]))
      else Failure(DATE2_ZONE_MESSAGE)
    else if arg2.StringArg? then
      if expression.StringArg? then Success(HandyDate(OfStringWithPattern, [expression, arg2]))
      else Failure(DATE2_PATTERN_MESSAGE)
    else Failure(DATE2_SECOND_MESSAGE)
  }

  /** date(Object, Object, Object): a String, a String pattern and a Locale, checked in
      that order; the first that does not fit decides the message. */
  function Date3(expression: Arg, pattern: Arg, locale: Arg): (r: Result<HandyDate, string>)
    ensures !expression.StringArg? ==> r == Failure(DATE3_FIRST_MESSAGE)
    ensures expression.StringArg? && !pattern.StringArg? ==> r == Failure(DATE3_SECOND_MESSAGE)
    ensures expression.StringArg? && pattern.StringArg? && !locale.LocaleArg? ==> r == Failure(DATE3_THIRD_MESSAGE)
    ensures r.Success? <==> expression.StringArg? && pattern.StringArg? && locale.LocaleArg?
    ensures r.Success? ==> CreatedFrom(r.value, [expression, pattern, locale])
  {
    if !expression.StringArg? then Failure(DATE3_FIRST_MESSAGE)
    else if !pattern.StringArg? then Failure(DATE3_SECOND_MESSAGE)
    else if !locale.LocaleArg? then Failure(DATE3_THIRD_MESSAGE)
    else Success(HandyDate(OfStringWithPatternInLocale, [expression, pattern, locale]))
  }

  /** date(Object, Object, Object, Object): a String, a TimeZone, a String pattern and a
      Locale, checked in that order; the first that does not fit decides the message. */
  function Date4(expression: Arg, timeZone: Arg, pattern: Arg, locale: Arg): (r: Result<HandyDate, string>)
    ensures !expression.StringArg? ==> r == Failure(DATE4_FIRST_MESSAGE)
    ensures expression.StringArg? && !timeZone.TimeZoneArg? ==> r == Failure(DATE4_SECOND_MESSAGE)
    ensures expression.StringArg? && timeZone.TimeZoneArg? && !pattern.StringArg? ==> r == Failure(DATE4_THIRD_MESSAGE)
    ensures expression.StringArg? && timeZone.TimeZoneArg? && pattern.StringArg? && !locale.LocaleArg? ==>
              r == Failure(DATE4_FOURTH_MESSAGE)
    ensures r.Success? <==> expression.StringArg? && timeZone.TimeZoneArg? && pattern.StringArg? && locale.LocaleArg?
    ensures r.Success? ==> CreatedFrom(r.value, [expression, timeZone, pattern, locale])
  {
    if !expression.StringArg? then Failure(DATE4_FIRST_MESSAGE)
    else if !timeZone.TimeZoneArg? then Failure(DATE4_SECOND_MESSAGE)
    else if !pattern.StringArg? then Failure(DATE4_THIRD_MESSAGE)
    else if !locale.LocaleArg? then Failure(DATE4_FOURTH_MESSAGE)
    else Success(HandyDate(OfStringInZoneWithPatternInLocale, [expression, timeZone, pattern, locale]))
  }

  // ---------------------------------------------------------------------------
  // format(...)

  /** format(Object, Object): the pattern must be a String, even for a null expression;
      a null expression then gives null (None); otherwise the expression is made a
      HandyDate as the one-argument date does and displayed with the pattern. */
  function Format2(expression: Arg, pattern: Arg): (r: Result<Option<Display>, string>)
    ensures !pattern.StringArg? ==> r == Failure(FORMAT_SECOND_MESSAGE)
    ensures pattern.StringArg? && expression.NullArg? ==> r == Success(None)
    ensures r.Success? && r.value.Some? ==>
              r.value.value.pattern == pattern.text && CreatedFrom(r.value.value.date, [expression])
    ensures r.Failure? && pattern.StringArg? ==> r.error == FORMAT_FIRST_MESSAGE
  {
    if pattern.StringArg? then
      if expression.NullArg? then Success(None)
      else if expression.LocalDateArg? then Success(Some(Display(HandyDate(OfLocalDate, [expression]), pattern.text)))
      else if expression.LocalDateTimeArg? then Success(Some(Display(HandyDate(OfLocalDateTime, [expression]), pattern.text)))
      else if expression.DateArg? then Success(Some(Display(HandyDate(OfDate, [expression]), pattern.text)))
      else if expression.StringArg? then Success(Some(Display(HandyDate(OfString, [expression]), pattern.text)))
      else Failure(FORMAT_FIRST_MESSAGE)
    else Failure(FORMAT_SECOND_MESSAGE)
  }

  /** format(Object): null for a null expression, otherwise the date displayed with the
      default pattern "yyyy-MM-dd". */
  function Format1(expression: Arg): (r: Result<Option<Display>, string>)
    ensures expression.NullArg? ==> r == Success(None)
    ensures r.Success? && r.value.Some? ==>
              r.value.value.pattern == DEFAULT_DATE_FORMAT_PATTERN && CreatedFrom(r.value.value.date, [expression])
  {
    Format2(expression, StringArg(DEFAULT_DATE_FORMAT_PATTERN))
  }

  // ---------------------------------------------------------------------------
  // Properties.

  /** A created HandyDate determines its arguments: two calls that give the same
      HandyDate were given the same arguments. */
  lemma CreationRecordsArguments(x: Arg, y: Arg)
    requires Date1(x).Success? && Date1(y).Success? && Date1(x) == Date1(y)
    ensures x == y
  {
    assert Date1(x).value.args == [x] && Date1(y).value.args == [y];
    assert [x][0] == [y][0];
  }

  /** Formatting with a pattern displays, with that pattern, the HandyDate the
      one-argument date makes; the two refuse the same non-null expressions, each with
      its own message. */
  lemma FormatIsDisplayedDate(expression: Arg, pattern: string)
    requires !expression.NullArg?
    ensures Format2(expression, StringArg(pattern)).Success? <==> Date1(expression).Success?
    ensures Date1(expression).Success? ==>
              Format2(expression, StringArg(pattern)) == Success(Some(Display(Date1(expression).value, pattern)))
  {
  }

  /** format(x) is format(x, "yyyy-MM-dd"). */
  lemma FormatDefaultsPattern(expression: Arg)
    ensures Format1(expression) == Format2(expression, StringArg(DEFAULT_DATE_FORMAT_PATTERN))
  {
  }

  /** A java.util.Date is taken alone but refused with a TimeZone. */
  lemma DateRefusedWithZone(date: int, zone: int)
    ensures Date1(DateArg(date)).Success?
    ensures Date2(DateArg(date), TimeZoneArg(zone)) == Failure(DATE2_ZONE_MESSAGE)
  {
  }
}
