/** C library string routines, as functions of a byte buffer and an index into it.
    A `char` stands for one byte of the source's `char` arrays.  A C string is the
    stretch of a buffer from an index up to the next NUL. */
module CStrings {
  const NUL := '\0'
  const CR := '\r'
  const LF := '\n'
  const BLANKS: set<char> := {' ', '\t'}
  const LINE_BREAKS: set<char> := {CR, LF}

  /** The first index at or after `i` that holds a member of `cs`; |s| when there is none. */
  function FirstIn(s: string, i: nat, cs: set<char>): (k: nat)
    requires i <= |s|
    ensures i <= k <= |s|
    ensures forall j | i <= j < k :: s[j] !in cs
    ensures k < |s| ==> s[k] in cs
    decreases |s| - i
  {
    if i == |s| || s[i] in cs then i else FirstIn(s, i + 1, cs)
  }

  /** strspn: the first index at or after `i` that does not hold a member of `cs`. */
  function FirstNotIn(s: string, i: nat, cs: set<char>): (k: nat)
    requires i <= |s|
    ensures i <= k <= |s|
    ensures forall j | i <= j < k :: s[j] in cs
    ensures k < |s| ==> s[k] !in cs
    decreases |s| - i
  {
    if i == |s| || s[i] !in cs then i else FirstNotIn(s, i + 1, cs)
  }

  /** The index of the NUL that ends the C string at `i`. */
  function TextEnd(s: string, i: nat): (k: nat)
    requires i <= |s|
    ensures i <= k <= |s|
  {
    FirstIn(s, i, {NUL})
  }

  /** There is a NUL at or after `i`, so the string routines stay inside the buffer. */
  predicate Terminated(s: string, i: nat) {
    i <= |s| && TextEnd(s, i) < |s|
  }

  /** The C string at `i`. */
  function Text(s: string, i: nat): string
    requires i <= |s|
  {
    s[i..TextEnd(s, i)]
  }

  /** tolower in the C locale. */
  function Lower(c: char): char {
    if 'A' <= c <= 'Z' then ((c as int) - ('A' as int) + ('a' as int)) as char else c
  }

  /** strcasecmp(s, t) == 0 */
  predicate EqNoCase(s: string, t: string) {
    |s| == |t| && forall i | 0 <= i < |s| :: Lower(s[i]) == Lower(t[i])
  }

  /** strncasecmp(s, prefix, |prefix|) == 0 */
  predicate PrefixNoCase(s: string, prefix: string) {
    |prefix| <= |s| && EqNoCase(s[..|prefix|], prefix)
  }

  predicate Avoids(s: string, cs: set<char>) {
    forall i | 0 <= i < |s| :: s[i] !in cs
  }

  predicate Within(s: string, cs: set<char>) {
    forall i | 0 <= i < |s| :: s[i] in cs
  }

  lemma FirstInUnique(s: string, i: nat, cs: set<char>, k: nat)
    requires i <= k < |s| && s[k] in cs
    requires forall j | i <= j < k :: s[j] !in cs
    ensures FirstIn(s, i, cs) == k
  {
    // the search result's own ensures leave no other index
  }

  lemma FirstNotInUnique(s: string, i: nat, cs: set<char>, k: nat)
    requires i <= k < |s| && s[k] !in cs
    requires forall j | i <= j < k :: s[j] in cs
    ensures FirstNotIn(s, i, cs) == k
  {
    // as above
  }

  /** A search that stops inside `s` does not see what follows `s`. */
  lemma FirstInAppend(s: string, t: string, i: nat, cs: set<char>)
    requires i <= |s|
    requires FirstIn(s, i, cs) < |s|
    ensures FirstIn(s + t, i, cs) == FirstIn(s, i, cs)
  {
    FirstInUnique(s + t, i, cs, FirstIn(s, i, cs));
  }

  lemma FirstNotInAppend(s: string, t: string, i: nat, cs: set<char>)
    requires i <= |s|
    requires FirstNotIn(s, i, cs) < |s|
    ensures FirstNotIn(s + t, i, cs) == FirstNotIn(s, i, cs)
  {
    FirstNotInUnique(s + t, i, cs, FirstNotIn(s, i, cs));
  }

  /** A search may be resumed from any index it has already passed. */
  lemma {:induction false} FirstInResume(s: string, i: nat, k: nat, cs: set<char>)
    requires i <= k <= |s|
    requires forall j | i <= j < k :: s[j] !in cs
    ensures FirstIn(s, i, cs) == FirstIn(s, k, cs)
    decreases k - i
  {
  }

  lemma TextAppend(s: string, t: string, i: nat)
    requires Terminated(s, i)
    ensures Terminated(s + t, i) && TextEnd(s + t, i) == TextEnd(s, i) && Text(s + t, i) == Text(s, i)
  {
    FirstInAppend(s, t, i, {NUL});
  }

  lemma PrefixOfPrefix(s: string, t: string, n: nat, k: nat)
    requires k <= n <= |s| && n <= |t| && s[..n] == t[..n]
    ensures s[..k] == t[..k]
  {
    assert s[..k] == s[..n][..k] && t[..k] == t[..n][..k];
  }

  /** A C string depends only on the bytes up to its NUL. */
  lemma TextFrame(s: string, t: string, i: nat, n: nat)
    requires Terminated(s, i) && TextEnd(s, i) < n <= |s| && n <= |t|
    requires s[..n] == t[..n]
    ensures Terminated(t, i) && TextEnd(t, i) == TextEnd(s, i) && Text(t, i) == Text(s, i)
  {
    var e := TextEnd(s, i);
    assert forall j | 0 <= j < n :: s[j] == s[..n][j] == t[..n][j] == t[j];
    FirstInUnique(t, i, {NUL}, e);
  }

  /** The C string inside another: a suffix shares the NUL. */
  lemma TextSuffix(s: string, i: nat, j: nat)
    requires Terminated(s, i) && i <= j <= TextEnd(s, i)
    ensures Terminated(s, j) && TextEnd(s, j) == TextEnd(s, i)
    ensures Text(s, j) == Text(s, i)[j - i..]
  {
  }

  const UPPER_CASE := "ABCDEFGHIJKLMNOPQRSTUVWXYZ"
  const LOWER_CASE := "abcdefghijklmnopqrstuvwxyz"

  /** The same letter in the other case. */
  ghost predicate OtherCase(c: char, d: char) {
    exists k | 0 <= k < 26 :: (c == UPPER_CASE[k] && d == LOWER_CASE[k]) || (c == LOWER_CASE[k] && d == UPPER_CASE[k])
  }

  lemma LowerTable(k: nat)
    requires k < 26
    ensures UPPER_CASE[k] as int == 65 + k && LOWER_CASE[k] as int == 97 + k
  {
  }

  /** tolower takes each upper-case letter to its lower-case one and leaves every other byte. */
  lemma LowerIs(c: char)
    ensures forall k | 0 <= k < 26 && c == UPPER_CASE[k] :: Lower(c) == LOWER_CASE[k]
    ensures c !in UPPER_CASE ==> Lower(c) == c
  {
    forall k | 0 <= k < 26 && c == UPPER_CASE[k] ensures Lower(c) == LOWER_CASE[k] {
      LowerTable(k);
    }
    if 'A' <= c <= 'Z' {
      LowerTable(c as int - 65);
      assert c == UPPER_CASE[c as int - 65];
    }
  }

  lemma SameLower(c: char, d: char)
    ensures Lower(c) == Lower(d) <==> c == d || OtherCase(c, d)
  {
    if c != d && Lower(c) == Lower(d) {
      var k := Lower(c) as int - 97;
      LowerTable(k);
      assert (c == UPPER_CASE[k] && d == LOWER_CASE[k]) || (c == LOWER_CASE[k] && d == UPPER_CASE[k]);
    } else if OtherCase(c, d) {
      var k :| 0 <= k < 26
               && ((c == UPPER_CASE[k] && d == LOWER_CASE[k]) || (c == LOWER_CASE[k] && d == UPPER_CASE[k]));
      LowerTable(k);
    }
  }

  /** strcasecmp: equal but for the case of letters, and nothing else. */
  lemma EqNoCaseIff(s: string, t: string)
    ensures EqNoCase(s, t)
            <==> |s| == |t| && forall i | 0 <= i < |s| :: s[i] == t[i] || OtherCase(s[i], t[i])
  {
    hide Lower, OtherCase;
    if |s| == |t| {
      forall i | 0 <= i < |s| ensures Lower(s[i]) == Lower(t[i]) <==> s[i] == t[i] || OtherCase(s[i], t[i]) {
        SameLower(s[i], t[i]);
      }
    }
  }
}
