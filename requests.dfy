/**
 * The profile request list the controller keeps at module level.  Its
 * name calls it a queue, but it is used with `push` and `pop`, so it hands
 * out the most recent request first.
 */
module RequestList {
  import opened Wrappers

  /** `push`: append at the end. */
  function Push<T>(s: seq<T>, x: T): (r: seq<T>)
    ensures |r| == |s| + 1 && r[|s|] == x && r[..|s|] == s
  {
    s + [x]
  }

  /** `pop`: take the last element; an empty list is left as it is. */
  function Pop<T>(s: seq<T>): (r: (Option<T>, seq<T>))
    ensures s == [] ==> r == (None, s)
    ensures s != [] ==> r.0 == Some(s[|s| - 1]) && r.1 + [s[|s| - 1]] == s
  {
    if s == [] then (None, s) else (Some(s[|s| - 1]), s[..|s| - 1])
  }

  function Reverse<T>(s: seq<T>): (r: seq<T>)
    ensures |r| == |s|
  {
    if s == [] then [] else Reverse(s[1..]) + [s[0]]
  }

  /** Pop `n` times: the elements taken, in the order taken, and what is left. */
  function PopMany<T>(s: seq<T>, n: nat): (r: (seq<T>, seq<T>))
    requires n <= |s|
  {
    if n == 0 then ([], s)
    else
      var (x, rest) := Pop(s);
      var (taken, left) := PopMany(rest, n - 1);
      ([x.value] + taken, left)
  }

  /** A pop right after a push hands back the pushed element and the list as it was. */
  lemma PopUndoesPush<T>(s: seq<T>, x: T)
    ensures Pop(Push(s, x)) == (Some(x), s)
  {
  }

  /**
   * Last in, first out: pushing `xs` in order and then popping as many times
   * hands them back in reverse order and leaves the earlier list untouched.
   */
  lemma {:induction false} LastInFirstOut<T>(s: seq<T>, xs: seq<T>)
    ensures PopMany(s + xs, |xs|) == (Reverse(xs), s)
  {
    if xs != [] {
      var n := |xs|;
      var init := xs[..n - 1];
      assert s + xs == (s + init) + [xs[n - 1]];
      assert Pop(s + xs) == (Some(xs[n - 1]), s + init);
      LastInFirstOut(s, init);
      assert |init| == n - 1;
      assert PopMany(s + xs, n) == ([xs[n - 1]] + Reverse(init), s);
      ReverseOfSnoc(init, xs[n - 1]);
      assert init + [xs[n - 1]] == xs;
    } else {
      assert s + xs == s;
    }
  }

  lemma {:induction false} ReverseOfSnoc<T>(s: seq<T>, x: T)
    ensures Reverse(s + [x]) == [x] + Reverse(s)
  {
    if s != [] {
      assert (s + [x])[1..] == s[1..] + [x];
      ReverseOfSnoc(s[1..], x);
    } else {
      assert s + [x] == [x];
    }
  }
}
