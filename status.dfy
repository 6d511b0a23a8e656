/** The optimisation `Status` record that every factor update returns and the
    EP loop passes on. Its defining file (autofit/graphical/utils.py) is not
    part of this model; the fields used by the modelled code are `success`,
    `messages` and `flag`, and a status is truthy exactly when `success` is. */
module EPStatus {

  datatype StatusFlag = Success | Failure

  datatype Status = Status(success: bool, messages: seq<string>, flag: StatusFlag)

  /** `Status()`: a successful status with no messages. */
  const DefaultStatus := Status(true, [], Success)

  /** `Status(False, (message,))`, the value the EP loop records for a caught error. */
  function Failed(message: string): (s: Status)
    ensures !s.success && s.messages == [message]
  {
    Status(false, [message], Success)
  }

  /** `bool(status)`. */
  predicate Truthy(s: Status)
  {
    s.success
  }

  /** `Status(**{**status._asdict(), "messages": status.messages + extra})`. */
  function WithMessages(s: Status, extra: seq<string>): (r: Status)
    ensures |r.messages| == |s.messages| + |extra|
    ensures r.messages[..|s.messages|] == s.messages && r.messages[|s.messages|..] == extra
    ensures r.success == s.success && r.flag == s.flag
  {
    Status(s.success, s.messages + extra, s.flag)
  }
}
