/** `with_error_notice`: the callback wrapper that turns a failure into a notice
    filed for the record the failing action worked on and the current user. */
module ErrorWrapper {
  import opened Wrappers
  import opened Levels
  import opened Exceptions
  import opened NoticeStore

  /** The positional argument naming the record. `PostObj` is a `WP_Post`,
      `IntId` a PHP int. `Other` is any other value; `coerced` is what the
      `int $post_id` parameter of `set_notice_status` makes of it under PHP's
      coercive typing (a numeric string or a bool is accepted), and `None` when
      that parameter throws a TypeError (null, an array, a non-post object, a
      non-numeric string). */
  datatype Arg = PostObj(id: int) | IntId(n: int) | Other(coerced: Option<int>)

  /** PHP's `null`, which is what reading a missing position of `$rest` yields. */
  const NullArg: Arg := Other(None)

  const WrongPostParameter: string := "Wrong post parameter"

  /** How the wrapped callback ended. */
  datatype Outcome<V> = Returned(value: V) | Threw(error: Throwable)

  /** How the wrapper ends: the callback's own value, PHP's implicit `null` after
      a failure was filed, or a TypeError raised inside the catch block, which
      leaves the wrapper uncaught. */
  datatype WrapResult<V> = ReturnedValue(value: V) | Null | EscapedTypeError

  datatype Wrapped<V> = Wrapped(result: WrapResult<V>, store: Store)

  /** `$rest[$post_position]`: a position outside the argument list reads `null`. */
  function PostArgument(args: seq<Arg>, position: int): Arg {
    if 0 <= position < |args| then args[position] else NullArg
  }

  /** The level a caught throwable is filed with: its own when it is already an
      `Admin_Notice\Exception`, otherwise Error. */
  function CaughtLevel(t: Throwable): Level {
    if t.Leveled? then t.level else Error
  }

  /** Lines 26-28: a leveled exception passes through; any other throwable is
      converted by `fromThrowable` at level Error, which fails with a TypeError
      when its code cannot be passed as an int. */
  function Normalize(t: Throwable): (r: Option<Throwable>)
    ensures r.Some? <==> Code(t).Some?
    ensures r.Some? ==> r.value.Leveled? && r.value.message == t.message && r.value.level == CaughtLevel(t)
    ensures t.Leveled? ==> r == Some(t)
    ensures r.Some? && !t.Leveled? ==> r.value.previous == Some(t)
  {
    if t.Leveled? then Some(t) else FromThrowable(t, Error)
  }

  /** The wrapped closure called with arguments `args`, for a callback that ends
      with `outcome`, by the current user `user`. */
  function WithErrorNotice<V>(outcome: Outcome<V>, args: seq<Arg>, position: int, user: int, store: Store): (w: Wrapped<V>)
    // Success: the callback's value, store untouched.
    ensures outcome.Returned? ==> w.result == ReturnedValue(outcome.value) && w.store == store
    // A failure never yields a value.
    ensures outcome.Threw? ==> !w.result.ReturnedValue?
    // The failure is swallowed unless one of the two coercions in the catch block throws.
    ensures w.result.EscapedTypeError? <==>
              outcome.Threw? && (Code(outcome.error).None? || PostArgument(args, position) == NullArg)
    ensures w.result.EscapedTypeError? ==> w.store == store
    // A post object or an int: the failure's own message at its level, under that id.
    ensures outcome.Threw? && Code(outcome.error).Some? && PostArgument(args, position).PostObj? ==>
              var id := PostArgument(args, position).id;
              && w.result == Null
              && Lookup(w.store, id, user) == Some(Notice(CaughtLevel(outcome.error), outcome.error.message))
              && SameExcept(store, w.store, TransientName(id, user))
    ensures outcome.Threw? && Code(outcome.error).Some? && PostArgument(args, position).IntId? ==>
              var id := PostArgument(args, position).n;
              && w.result == Null
              && Lookup(w.store, id, user) == Some(Notice(CaughtLevel(outcome.error), outcome.error.message))
              && SameExcept(store, w.store, TransientName(id, user))
    // Anything else that coerces: the fixed message at level Error, whatever the failure was.
    ensures outcome.Threw? && Code(outcome.error).Some? && PostArgument(args, position).Other?
            && PostArgument(args, position).coerced.Some? ==>
              var id := PostArgument(args, position).coerced.value;
              && w.result == Null
              && Lookup(w.store, id, user) == Some(Notice(Error, WrongPostParameter))
              && SameExcept(store, w.store, TransientName(id, user))
  {
    match outcome
    case Returned(v) => Wrapped(ReturnedValue(v), store)
    case Threw(t) =>
      var post := PostArgument(args, position);
      match Normalize(t)
      case None => Wrapped(EscapedTypeError, store)
      case Some(e) =>
        match post
        case PostObj(id) => Wrapped(Null, SetNoticeStatus(store, id, user, e))
        case IntId(n) => Wrapped(Null, SetNoticeStatus(store, n, user, e))
        case Other(coerced) =>
          match coerced
          case None => Wrapped(EscapedTypeError, store)
          case Some(n) =>
            Wrapped(Null, SetNoticeStatus(store, n, user, NewException(WrongPostParameter, 0, Error, None)))
  }

  /** The id a failure is filed under for argument `a`: a post's `ID`, an int itself,
      or the int another value coerces to; `None` for a value that does not coerce. */
  function FiledId(a: Arg): Option<int> {
    match a
    case PostObj(id) => Some(id)
    case IntId(n) => Some(n)
    case Other(coerced) => coerced
  }

  /** A failure filed by the wrapper touches no other (post, user) pair's notice. */
  lemma FailureKeepsOtherNotices<V>(t: Throwable, args: seq<Arg>, position: int, user: int, store: Store, p: int, u: int)
    requires Code(t).Some? && PostArgument(args, position) != NullArg
    requires (p, u) != (FiledId(PostArgument(args, position)).value, user)
    ensures Lookup(WithErrorNotice<V>(Threw(t), args, position, user, store).store, p, u) == Lookup(store, p, u)
  {
    TransientNameInjective(FiledId(PostArgument(args, position)).value, user, p, u);
  }

  /** Calling the wrapper with too few arguments for its position is the `null` case:
      the failure escapes as a TypeError and nothing is filed. */
  lemma MissingArgumentEscapes<V>(t: Throwable, args: seq<Arg>, position: int, user: int, store: Store)
    requires position >= |args|
    ensures WithErrorNotice<V>(Threw(t), args, position, user, store) == Wrapped(EscapedTypeError, store)
  {
  }
}
