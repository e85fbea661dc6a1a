/** `wp_unslash` on a string, which is PHP's `stripslashes`: every backslash is
    dropped and the character after it is kept literally, except that `\0`
    becomes a NUL character and a lone trailing backslash disappears. The
    notice message is stored as `getMessage()` returns it, so a backslash in it
    is not an escape, and `get_notices` alters the message. */
module Slashes {

  const Backslash: char := '\\'
  const Nul: char := '\0'

  predicate HasNoBackslash(s: string) {
    forall i :: 0 <= i < |s| ==> s[i] != Backslash
  }

  function Unslash(s: string): (r: string)
    ensures |r| <= |s|
    decreases |s|
  {
    if |s| == 0 then []
    else if s[0] != Backslash then [s[0]] + Unslash(s[1..])
    else if |s| == 1 then []
    else (if s[1] == '0' then [Nul] else [s[1]]) + Unslash(s[2..])
  }

  /** A message with no backslash comes back from `wp_unslash` unchanged. */
  lemma {:induction false} UnslashIdentity(s: string)
    requires HasNoBackslash(s)
    ensures Unslash(s) == s
    decreases |s|
  {
    if |s| > 0 {
      UnslashIdentity(s[1..]);
      assert [s[0]] + s[1..] == s;
    }
  }

  /** A single backslash inside a message is dropped: for backslash-free `a` and
      `b`, where `b` does not start with '0', the message `a\b` reads back as `ab`. */
  lemma {:induction false} UnslashDropsBackslash(a: string, b: string)
    requires HasNoBackslash(a) && HasNoBackslash(b)
    requires |b| > 0 && b[0] != '0'
    ensures Unslash(a + [Backslash] + b) == a + b
    decreases |a|
  {
    if |a| == 0 {
      assert ([] + [Backslash] + b)[2..] == b[1..];
      UnslashIdentity(b[1..]);
      assert [b[0]] + b[1..] == b;
    } else {
      UnslashDropsBackslash(a[1..], b);
      assert (a + [Backslash] + b)[1..] == a[1..] + [Backslash] + b;
      assert [a[0]] + (a[1..] + b) == a + b;
    }
  }

  /** A Windows path in a message loses its separator: `C:\temp` reads back as `C:temp`. */
  lemma WindowsPathAltered()
    ensures Unslash("C:\\temp") == "C:temp"
  {
  }
}
