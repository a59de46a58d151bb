/** The values the mail-or-not decision reads: the raised exception and the
    `email-exception.ErrorEmail` configuration block. */
module Exceptions {

  datatype Option<T> = None | Some(value: T)

  /** `getCode()`: an integer for most exceptions; database exceptions return
      the SQLSTATE string, such as "23000" or "HY000". */
  datatype Code = IntCode(n: int) | StringCode(s: string)

  /** A raised exception as the decision engine sees it. `ancestors` holds every
      parent class and implemented interface of `className`, so that PHP's
      `instanceof` is decided by `InstanceOf` below. */
  datatype Exception = Exception(
    className: string,
    ancestors: set<string>,
    message: string,
    code: Code)

  /** `$exception instanceof $type` for a type named by a string. */
  predicate InstanceOf(e: Exception, typeName: string) {
    typeName == e.className || typeName in e.ancestors
  }

  /** A configured list of exception types. PHP only scans it when it is an
      array: `None` stands for an unset or non-array setting. */
  type TypeList = Option<seq<string>>

  /** The configuration values read by the decision engine. An unset address
      is the empty string. */
  datatype Config = Config(
    email: bool,
    toEmailAddress: string,
    fromEmailAddress: string,
    throttle: bool,
    throttleDurationMinutes: int,
    globalThrottle: bool,
    globalThrottleDurationMinutes: int,
    globalThrottleLimit: int,
    dontEmail: TypeList,
    dontThrottle: TypeList)

  /** PHP truthiness of a string setting: the empty string and "0" are false. */
  predicate Truthy(s: string) {
    s != "" && s != "0"
  }
}
