/** Small shared vocabulary: optional values, results and string joining. */
module Common {

  datatype Option<+T> = None | Some(value: T)

  datatype Result<+T, +E> = Success(value: T) | Failure(error: E)

  /** Python's `sep.join(items)`. */
  function Join(items: seq<string>, sep: string): (r: string)
    ensures items == [] ==> r == ""
    ensures |items| == 1 ==> r == items[0]
  {
    if items == [] then ""
    else if |items| == 1 then items[0]
    else items[0] + sep + Join(items[1..], sep)
  }

  /** The first position of `c` in `s`, if any. */
  function IndexOf(s: string, c: char): (r: Option<nat>)
    ensures r.Some? ==> r.value < |s|
  {
    IndexFrom(s, c, 0)
  }

  /** The first position of `c` in `s` at or after `i`, if any. */
  function IndexFrom(s: string, c: char, i: nat): (r: Option<nat>)
    requires i <= |s|
    ensures r.Some? ==> i <= r.value < |s|
    decreases |s| - i
  {
    if i == |s| then None else if s[i] == c then Some(i) else IndexFrom(s, c, i + 1)
  }

  /** IndexFrom finds the first occurrence at or after `i`, and finds
    * nothing exactly when there is none. */
  lemma {:induction false} IndexFromSpec(s: string, c: char, i: nat)
    requires i <= |s|
    ensures var r := IndexFrom(s, c, i);
      && (r.None? ==> forall k :: i <= k < |s| ==> s[k] != c)
      && (r.Some? ==> s[r.value] == c && forall k :: i <= k < r.value ==> s[k] != c)
    decreases |s| - i
  {
    if i < |s| && s[i] != c {
      IndexFromSpec(s, c, i + 1);
    }
  }

  /** Conversely, the first occurrence from `i` on is what IndexFrom finds. */
  lemma {:induction false} IndexFromAt(s: string, c: char, i: nat, n: nat)
    requires i <= n < |s| && s[n] == c
    requires forall k :: i <= k < n ==> s[k] != c
    ensures IndexFrom(s, c, i) == Some(n)
    decreases n - i
  {
    if i < n {
      IndexFromAt(s, c, i + 1, n);
    }
  }

  /** With no occurrence from `i` on, IndexFrom finds nothing. */
  lemma {:induction false} IndexFromNone(s: string, c: char, i: nat)
    requires i <= |s|
    requires forall k :: i <= k < |s| ==> s[k] != c
    ensures IndexFrom(s, c, i) == None
    decreases |s| - i
  {
    if i < |s| {
      IndexFromNone(s, c, i + 1);
    }
  }

  lemma {:induction false} IndexOfSpec(s: string, c: char)
    ensures var r := IndexOf(s, c);
      && (r.None? <==> c !in s)
      && (r.Some? ==> s[r.value] == c && forall k :: 0 <= k < r.value ==> s[k] != c)
  {
    IndexFromSpec(s, c, 0);
  }
}
