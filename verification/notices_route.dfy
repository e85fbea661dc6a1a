/** The `admin-notice/v1/notices/{id}` REST route: which path segments reach
    `get_notices`, and what the request does to the store. */
module NoticesRoute {
  import opened Wrappers
  import opened Decimal
  import opened Levels
  import opened Slashes
  import opened NoticeStore

  /** The `(?P<id>\d+)` path pattern: one or more ASCII digits. */
  predicate MatchesRoute(segment: string) {
    |segment| > 0 && AllDigits(segment)
  }

  /** The record id a matched segment is accepted as: `validate_callback` requires
      `is_numeric` (always true of a digit string) and `intval > 0`, and `absint`
      then keeps that positive value. */
  function RouteId(segment: string): (r: Option<int>)
    ensures r.Some? <==> MatchesRoute(segment) && HasNonZeroDigit(segment)
                         && DigitsValue(segment) < DoubleOverflow
    ensures r.Some? ==> 0 < r.value <= PhpIntMax
    ensures r.Some? && DigitsValue(segment) <= PhpIntMax ==> r.value == DigitsValue(segment)
    ensures r.Some? && DigitsValue(segment) > PhpIntMax ==> r.value == PhpIntMax
  {
    if !MatchesRoute(segment) then None
    else
      DigitsValuePositive(segment);
      var n := IntVal(segment);
      if n > 0 then Some(n) else None
  }

  datatype Rejection = NoRoute | InvalidParam | Forbidden

  datatype HttpResult = Rejected(reason: Rejection) | Ok(body: Response)

  datatype Handled = Handled(result: HttpResult, store: Store)

  /** A GET of `notices/{segment}` by user `userId`, whose `current_user_can('edit_posts')`
      is `canEditPosts`. */
  function HandleNoticesRequest(store: Store, segment: string, canEditPosts: bool, userId: int): (h: Handled)
    ensures !MatchesRoute(segment) ==> h.result == Rejected(NoRoute)
    ensures MatchesRoute(segment) && !HasNonZeroDigit(segment) ==> h.result == Rejected(InvalidParam)
    ensures MatchesRoute(segment) && DigitsValue(segment) >= DoubleOverflow ==> h.result == Rejected(InvalidParam)
    ensures RouteId(segment).Some? && !canEditPosts ==> h.result == Rejected(Forbidden)
    ensures h.result.Rejected? ==> h.store == store
    ensures h.result.Ok? <==> RouteId(segment).Some? && canEditPosts
    ensures h.result.Ok? ==>
              var id := RouteId(segment).value;
              && Lookup(h.store, id, userId) == None
              && SameExcept(store, h.store, TransientName(id, userId))
              && (Lookup(store, id, userId).None? ==> h.result.body == Empty)
              && (Lookup(store, id, userId).Some? ==>
                    var n := Lookup(store, id, userId).value;
                    h.result.body == NoticeResponse(Value(n.level), Unslash(n.message)))
  {
    if !MatchesRoute(segment) then Handled(Rejected(NoRoute), store)
    else match RouteId(segment)
      case None => Handled(Rejected(InvalidParam), store)
      case Some(id) =>
        if !canEditPosts then Handled(Rejected(Forbidden), store)
        else
          var a := GetNotices(store, id, userId);
          Handled(Ok(a.response), a.store)
  }

  /** `Number.MAX_SAFE_INTEGER`: the editor script's `postId` is a JavaScript
      number, which holds every integer up to this bound exactly. */
  const MaxSafeInteger: int := 0x1F_FFFF_FFFF_FFFF

  /** The editor script requests `notices/${postId}`; for every positive post id
      a JavaScript number holds exactly, the route reads that segment back as the same id. */
  lemma ClientUrlRoundTrip(postId: int)
    requires 0 < postId <= MaxSafeInteger
    ensures RouteId(NatToString(postId)) == Some(postId)
  {
    NatToStringRoundTrip(postId);
    DigitsValuePositive(NatToString(postId));
  }

  /** "0" and "000" are rejected, "007" is record 7, and a non-digit segment never matches. */
  lemma RouteExamples()
    ensures RouteId("0") == None && RouteId("000") == None
    ensures RouteId("007") == Some(7)
    ensures RouteId("abc") == None && RouteId("") == None
  {
    assert !HasNonZeroDigit("0");
    assert !HasNonZeroDigit("000");
    assert "007"[..2] == "00" && "00"[..1] == "0" && "0"[..0] == "";
    assert "007"[2] != '0';
    assert !IsDigit("abc"[0]);
  }
}
