/** Optional values and the failures the calendar parser can raise. */
module Outcomes {

  datatype Option<+T> = None | Some(value: T)

  /** One constructor per place where the Python code raises an exception. */
  datatype Error =
    | EmptyLineExamined   // IndexError: `lines[i][0]` on an empty line while unfolding
    | EndWithoutEvent     // AttributeError: END:VEVENT while no event is in progress
    | StartNotTimestamp   // AttributeError: `event.start.year` when start is None or text
    | StampLineUnmatched  // AttributeError: the DATE-TIME line fails the second regex, `matches` is None
    | InvalidTimestamp    // ValueError: strptime rejects the digits
    | Incomparable        // TypeError: None or text compared with a datetime

  datatype Result<+T> = Ok(value: T) | Err(error: Error)
}
