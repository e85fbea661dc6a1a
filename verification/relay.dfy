/** The relay end to end: a failing action filed by the wrapper, the editor's
    fetch of `notices/{postId}`, and the banner it dispatches. */
module Relay {
  import opened Decimal
  import opened Levels
  import opened Exceptions
  import opened Slashes
  import opened NoticeStore
  import opened ErrorWrapper
  import opened NoticesRoute
  import opened SavePoller

  /** A failure on a post that the route can name reaches that user's editor
      exactly once: the first fetch shows the failure at its level, the next one
      removes the banner. */
  lemma FailureReachesEditorOnce<V>(t: Throwable, args: seq<Arg>, position: int, userId: int, store: Store)
    requires Code(t).Some?
    requires PostArgument(args, position).PostObj?
    requires 0 < PostArgument(args, position).id <= MaxSafeInteger
    ensures var postId := PostArgument(args, position).id;
            var filed := WithErrorNotice<V>(Threw(t), args, position, userId, store).store;
            var first := HandleNoticesRequest(filed, NatToString(postId), true, userId);
            var second := HandleNoticesRequest(first.store, NatToString(postId), true, userId);
            && first.result == Ok(NoticeResponse(Value(CaughtLevel(t)), Unslash(t.message)))
            && Dispatch(first.result.body) == CreateNotice(Value(CaughtLevel(t)), Unslash(t.message) + " ", NoticeId, true)
            && second.result == Ok(Empty)
            && Dispatch(second.result.body) == RemoveNotice(NoticeId)
  {
    ClientUrlRoundTrip(PostArgument(args, position).id);
  }

  /** A message without backslashes is shown verbatim, followed by the space the
      script appends. */
  lemma PlainMessageShownVerbatim(n: Notice)
    requires HasNoBackslash(n.message)
    ensures Dispatch(NoticeResponse(Value(n.level), Unslash(n.message)))
            == CreateNotice(Value(n.level), n.message + " ", NoticeId, true)
  {
    UnslashIdentity(n.message);
  }

  /** A callback that returns normally leaves the editor's next fetch as it would
      have been without the call. */
  lemma SuccessChangesNoFetch<V>(v: V, args: seq<Arg>, position: int, userId: int, store: Store, segment: string)
    ensures HandleNoticesRequest(WithErrorNotice<V>(Returned(v), args, position, userId, store).store, segment, true, userId)
            == HandleNoticesRequest(store, segment, true, userId)
  {
  }
}
