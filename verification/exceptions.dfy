/** Throwables as the notice wrapper sees them: any PHP `\Throwable`, and the
    leveled `Admin_Notice\Exception` that carries a notice level. */
module Exceptions {
  import opened Wrappers
  import opened Levels

  /** A throwable. `Plain` is any throwable that is not an `Admin_Notice\Exception`;
      its `intCode` is what an `int` parameter receives from `getCode()` under PHP's
      coercive typing, and is `None` when that parameter refuses the code with a
      TypeError (a PDOException's SQLSTATE string such as "HY000", say).
      `Leveled` is an `Admin_Notice\Exception`: its code is always an int, its level
      is fixed at construction and there is no operation that changes it. */
  datatype Throwable =
    | Plain(message: string, intCode: Option<int>)
    | Leveled(message: string, code: int, level: Level, previous: Option<Throwable>)

  /** `getCode()` as an `int` parameter receives it. */
  function Code(t: Throwable): Option<int> {
    match t
    case Plain(_, c) => c
    case Leveled(_, c, _, _) => Some(c)
  }

  /** `new Exception($message, $code, $level, $previous)`. */
  function NewException(message: string, code: int, level: Level, previous: Option<Throwable>): (e: Throwable)
    ensures e.Leveled?
    ensures e.level == level
    ensures e.message == message && Code(e) == Some(code) && e.previous == previous
  {
    Leveled(message, code, level, previous)
  }

  /** `Exception::fromThrowable($t, $level)`: a leveled copy of `t`'s message and code
      with `t` as its previous throwable; `None` when passing `t`'s code to the
      constructor's `int $code` parameter throws a TypeError instead. */
  function FromThrowable(t: Throwable, level: Level): (r: Option<Throwable>)
    ensures r.Some? <==> Code(t).Some?
    ensures r.Some? ==> r.value.Leveled? && r.value.level == level
    ensures r.Some? ==> r.value.message == t.message && Code(r.value) == Code(t)
    ensures r.Some? ==> r.value.previous == Some(t)
  {
    match Code(t)
    case None => None
    case Some(c) => Some(NewException(t.message, c, level, Some(t)))
  }

  /** The level of a `fromThrowable` result does not depend on the wrapped throwable:
      two throwables with the same message and code give exceptions that differ only
      in what they record as previous. */
  lemma FromThrowableLevelIndependent(t: Throwable, u: Throwable, level: Level)
    requires Code(t).Some? && Code(u).Some?
    requires t.message == u.message && Code(t) == Code(u)
    ensures FromThrowable(t, level).value.level == FromThrowable(u, level).value.level == level
    ensures FromThrowable(t, level).value == FromThrowable(u, level).value.(previous := Some(t))
  {
  }
}
