/** The `NoticeLevels` backed enum: the four severities a notice can carry,
    and the string each one is backed by. */
module Levels {
  datatype Level = Info | Warning | Error | Success

  /** `$level->value`: the string stored in the notice and sent to the editor. */
  function Value(l: Level): (s: string)
    ensures |s| > 0
  {
    match l
    case Info => "info"
    case Warning => "warning"
    case Error => "error"
    case Success => "success"
  }

  /** Distinct levels are sent to the editor as distinct codes, so the code the
      editor receives identifies the level that was filed. */
  lemma ValueInjective(a: Level, b: Level)
    ensures Value(a) == Value(b) ==> a == b
  {
  }
}
