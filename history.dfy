/**
 The history document shared by the browser grid and the server: a nested
 mapping employee id -> week label -> day label -> status label. It is a plain
 value; both the client page and the file store hold it by content.
 */
module History {

  /** The conventional optional value, used for a parse that may fail. */
  datatype Option<+T> = None | Some(value: T) {

    /** The value inside `Some`, or `default` for `None`. */
    function GetOr(default: T): T {
      match this
      case Some(v) => v
      case None => default
    }
  }

  /** The statuses of one week, keyed by day label ("Mon" .. "Sun"). */
  type DayMap = map<string, string>

  /** The weeks recorded for one employee, keyed by week label. */
  type WeekMap = map<string, DayMap>

  /** The whole history, keyed by employee id. */
  type Document = map<string, WeekMap>

  /** The document that stands for "nothing stored yet": `{}`. */
  const EmptyDocument: Document := map[]
}
