/** The read-once notice store: transients named `admin-notice-{post}-{user}`
    holding a `{level, message}` notice, written by `set_notice_status` and
    read-and-deleted by `get_notices` and `legacy_notice`. */
module NoticeStore {
  import opened Wrappers
  import opened Decimal
  import opened Levels
  import opened Exceptions
  import opened Slashes

  /** The `{level, message}` record a transient holds. */
  datatype Notice = Notice(level: Level, message: string)

  /** The transient table, by transient name. Other names may hold other entries. */
  type Store = map<string, Notice>

  const TransientPrefix: string := "admin-notice-"

  /** `sprintf('admin-notice-%d-%d', $post_id, $user_id)`. */
  function TransientName(postId: int, userId: int): string {
    TransientPrefix + IntToString(postId) + "-" + IntToString(userId)
  }

  /** `s` and `s'` agree on every transient except `name`. */
  ghost predicate SameExcept(s: Store, s': Store, name: string) {
    forall k :: k != name ==> (k in s <==> k in s') && (k in s ==> s[k] == s'[k])
  }

  /** The notice filed for a post and a user, if any. */
  function Lookup(store: Store, postId: int, userId: int): Option<Notice> {
    var name := TransientName(postId, userId);
    if name in store then Some(store[name]) else None
  }

  /** `set_transient(TransientName(postId, userId), $notice, 3600)`: overwrites. */
  function Put(store: Store, postId: int, userId: int, n: Notice): (r: Store)
    ensures Lookup(r, postId, userId) == Some(n)
    ensures SameExcept(store, r, TransientName(postId, userId))
  {
    store[TransientName(postId, userId) := n]
  }

  datatype Taken = Taken(notice: Option<Notice>, store: Store)

  /** `get_transient` followed by `delete_transient` on the same name. */
  function TakeAndClear(store: Store, postId: int, userId: int): (r: Taken)
    ensures r.notice == Lookup(store, postId, userId)
    ensures Lookup(r.store, postId, userId) == None
    ensures SameExcept(store, r.store, TransientName(postId, userId))
    ensures r.store.Keys == store.Keys - {TransientName(postId, userId)}
  {
    var name := TransientName(postId, userId);
    Taken(Lookup(store, postId, userId), map k | k in store && k != name :: store[k])
  }

  /** `set_notice_status($post_id, $e)` for the current user `userId`. */
  function SetNoticeStatus(store: Store, postId: int, userId: int, e: Throwable): (r: Store)
    requires e.Leveled?
    ensures Lookup(r, postId, userId) == Some(Notice(e.level, e.message))
    ensures SameExcept(store, r, TransientName(postId, userId))
  {
    Put(store, postId, userId, Notice(e.level, e.message))
  }

  /** The body of the `get_notices` REST response. */
  datatype Response = Empty | NoticeResponse(code: string, message: string)

  datatype Answered = Answered(response: Response, store: Store)

  /** `get_notices` for the already validated record id `id` and current user `userId`. */
  function GetNotices(store: Store, id: int, userId: int): (r: Answered)
    ensures Lookup(store, id, userId).None? ==> r.response == Empty
    ensures Lookup(store, id, userId).Some? ==>
              var n := Lookup(store, id, userId).value;
              r.response == NoticeResponse(Value(n.level), Unslash(n.message))
    ensures Lookup(r.store, id, userId) == None
    ensures SameExcept(store, r.store, TransientName(id, userId))
  {
    var t := TakeAndClear(store, id, userId);
    match t.notice
    case None => Answered(Empty, t.store)
    case Some(n) => Answered(NoticeResponse(Value(n.level), Unslash(n.message)), t.store)
  }

  datatype Shown = Shown(banner: Option<Notice>, store: Store)

  /** `legacy_notice` on a page whose `get_the_ID()` is `currentPost`; `false`
      (no current post) prints as 0 under `%d`. The banner is the notice echoed. */
  function LegacyNotice(store: Store, currentPost: Option<int>, userId: int): (r: Shown)
    ensures r.banner == Lookup(store, currentPost.GetOr(0), userId)
    ensures Lookup(r.store, currentPost.GetOr(0), userId) == None
    ensures SameExcept(store, r.store, TransientName(currentPost.GetOr(0), userId))
  {
    var t := TakeAndClear(store, currentPost.GetOr(0), userId);
    Shown(t.notice, t.store)
  }

  /** In `a + "-" + b` with `a` printed by `%d`, the first dash after position 0
      is the separator. */
  lemma DashPosition(a: string, b: string)
    requires |a| > 0 && AllDigits(a[1..])
    ensures (a + "-" + b)[|a|] == '-'
    ensures forall i :: 1 <= i < |a| ==> (a + "-" + b)[i] != '-'
  {
  }

  /** Splitting at the separator recovers both `%d`-printed parts. */
  lemma DashSplit(a: string, b: string, c: string, d: string)
    requires |a| > 0 && AllDigits(a[1..])
    requires |c| > 0 && AllDigits(c[1..])
    requires a + "-" + b == c + "-" + d
    ensures a == c && b == d
  {
    var x := a + "-" + b;
    DashPosition(a, b);
    DashPosition(c, d);
    assert |a| == |c|;
    assert a == x[..|a|] == c;
    assert b == x[|a| + 1..] == d;
  }

  /** Distinct (post, user) pairs name distinct transients, so the store behaves as
      a map keyed by the pair. */
  lemma TransientNameInjective(p: int, u: int, p': int, u': int)
    ensures TransientName(p, u) == TransientName(p', u') ==> p == p' && u == u'
  {
    if TransientName(p, u) == TransientName(p', u') {
      var a, b := IntToString(p), IntToString(u);
      var c, d := IntToString(p'), IntToString(u');
      var n := |TransientPrefix|;
      assert TransientName(p, u)[n..] == a + "-" + b;
      assert TransientName(p', u')[n..] == c + "-" + d;
      DashSplit(a, b, c, d);
      IntToStringInjective(p, p');
      IntToStringInjective(u, u');
    }
  }

  /** Filing a notice for one (post, user) pair leaves every other pair's notice as it was. */
  lemma PutKeepsOtherNotices(store: Store, p: int, u: int, n: Notice, p': int, u': int)
    requires (p, u) != (p', u')
    ensures Lookup(Put(store, p, u, n), p', u') == Lookup(store, p', u')
  {
    TransientNameInjective(p, u, p', u');
  }

  /** Reading one pair's notice leaves every other pair's notice as it was. */
  lemma TakeKeepsOtherNotices(store: Store, p: int, u: int, p': int, u': int)
    requires (p, u) != (p', u')
    ensures Lookup(TakeAndClear(store, p, u).store, p', u') == Lookup(store, p', u')
  {
    TransientNameInjective(p, u, p', u');
  }

  /** Two notices filed for the same pair before a read: only the second is kept. */
  lemma LastWriteWins(store: Store, p: int, u: int, first: Notice, second: Notice)
    ensures Put(Put(store, p, u, first), p, u, second) == Put(store, p, u, second)
    ensures TakeAndClear(Put(Put(store, p, u, first), p, u, second), p, u).notice == Some(second)
  {
  }

  /** Notices filed for different pairs do not interfere, in either order. */
  lemma PutsCommute(store: Store, p: int, u: int, a: Notice, p': int, u': int, b: Notice)
    requires (p, u) != (p', u')
    ensures Put(Put(store, p, u, a), p', u', b) == Put(Put(store, p', u', b), p, u, a)
  {
    TransientNameInjective(p, u, p', u');
  }

  /** A filed notice is delivered to the first `get_notices` and to no later one. */
  lemma ReadOnce(store: Store, id: int, userId: int, n: Notice)
    ensures var first := GetNotices(Put(store, id, userId, n), id, userId);
            && first.response == NoticeResponse(Value(n.level), Unslash(n.message))
            && GetNotices(first.store, id, userId).response == Empty
  {
  }
}
