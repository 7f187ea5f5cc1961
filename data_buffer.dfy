/** The clients' sample buffer: a deque with a maximum length that drops its oldest
    item when an append would exceed it, and the power-of-two rounding one client
    applies to the requested length. */
module DataBuffers {
  import opened Wrappers

  function Last<T>(s: seq<T>): T
    requires s != []
  {
    s[|s| - 1]
  }

  /** The last n items of s (all of s when it is shorter). */
  function LastN<T>(s: seq<T>, n: nat): (r: seq<T>)
    ensures |r| == if |s| <= n then |s| else n
  {
    if |s| <= n then s else s[|s| - n..]
  }

  /** What is kept is the newest part: a suffix of s. */
  lemma LastNIsSuffix<T>(s: seq<T>, n: nat)
    ensures LastN(s, n) == s[|s| - |LastN(s, n)|..]
  {
  }

  /** deque.append on a deque with maxlen cap. */
  function BoundedAppend<T>(s: seq<T>, x: T, cap: nat): (r: seq<T>)
    ensures cap >= 1 ==> r != [] && Last(r) == x
  {
    LastN(s + [x], cap)
  }

  /** An append keeps at most cap items, ends with the new item (unless cap is 0, when
      the deque stays empty), and, on a full deque, drops exactly the oldest item. */
  lemma BoundedAppendEvictsOldest<T>(s: seq<T>, x: T, cap: nat)
    requires |s| <= cap
    ensures |BoundedAppend(s, x, cap)| <= cap
    ensures cap == 0 ==> BoundedAppend(s, x, cap) == []
    ensures |s| < cap ==> BoundedAppend(s, x, cap) == s + [x]
    ensures 0 < |s| == cap ==> BoundedAppend(s, x, cap) == s[1..] + [x]
  {
    if 0 < |s| == cap {
      assert (s + [x])[1..] == s[1..] + [x];
    }
  }

  /** Appending items one at a time. */
  function AppendAll<T>(s: seq<T>, xs: seq<T>, cap: nat): seq<T>
    decreases |xs|
  {
    if xs == [] then s else BoundedAppend(AppendAll(s, xs[..|xs| - 1], cap), xs[|xs| - 1], cap)
  }

  /** Whatever was appended, the deque holds the last cap items of everything, in
      insertion order. */
  lemma {:induction false} AppendAllKeepsNewest<T>(s: seq<T>, xs: seq<T>, cap: nat)
    requires |s| <= cap
    ensures AppendAll(s, xs, cap) == LastN(s + xs, cap)
    decreases |xs|
  {
    if xs == [] {
      assert s + xs == s;
    } else {
      var p := xs[..|xs| - 1];
      var x := xs[|xs| - 1];
      AppendAllKeepsNewest(s, p, cap);
      assert s + xs == (s + p) + [x];
      LastNThenAppend(s + p, x, cap);
    }
  }

  /** Trimming before an append loses nothing the trimmed append would keep. */
  lemma LastNThenAppend<T>(t: seq<T>, x: T, cap: nat)
    ensures LastN(LastN(t, cap) + [x], cap) == LastN(t + [x], cap)
  {
    if |t| > cap {
      var r := t[|t| - cap..];
      if cap > 0 {
        assert (r + [x])[1..] == t[|t| - cap + 1..] + [x];
        assert (t + [x])[|t| + 1 - cap..] == t[|t| + 1 - cap..] + [x];
      }
    }
  }

  /** Python indexing: a non-negative index counts from the front, a negative one from
      the back; anything else is an IndexError. */
  function PyIndex<T>(s: seq<T>, index: int): (r: Option<T>)
    ensures r.Some? <==> -|s| <= index < |s|
    ensures 0 <= index < |s| ==> r == Some(s[index])
    ensures -|s| <= index < 0 ==> r == Some(s[|s| + index])
  {
    if 0 <= index < |s| then Some(s[index])
    else if -|s| <= index < 0 then Some(s[|s| + index])
    else None
  }

  /** The cap chosen for a requested maxlen of at least 1: 1 << ceil(log2(maxlen)). */
  function Pow2(k: nat): (p: nat)
    ensures p >= 1
  {
    if k == 0 then 1 else 2 * Pow2(k - 1)
  }

  /** ceil(log2(n)): halving, rounding up, until 1 is reached. */
  function CeilLog2(n: nat): nat
    requires n >= 1
  {
    if n == 1 then 0 else 1 + CeilLog2((n + 1) / 2)
  }

  function NextPow2(n: nat): nat
    requires n >= 1
  {
    Pow2(CeilLog2(n))
  }

  /** The rounded capacity is at least the request, and the next smaller power of two
      is below it: it is the smallest power of two that holds n items. */
  lemma {:induction false} NextPow2IsSmallestPowerAbove(n: nat)
    requires n >= 1
    ensures n <= NextPow2(n)
    ensures CeilLog2(n) > 0 ==> Pow2(CeilLog2(n) - 1) < n
  {
    if n > 1 {
      var m := (n + 1) / 2;
      NextPow2IsSmallestPowerAbove(m);
      var k := CeilLog2(m);
      assert CeilLog2(n) == k + 1;
      assert Pow2(k + 1) == 2 * Pow2(k);
      if k > 0 {
        assert Pow2(k) == 2 * Pow2(k - 1);
      }
    }
  }

  lemma DefaultPow2Capacity()
    ensures NextPow2(2000) == 2048
  {
    assert CeilLog2(2000) == 11;
  }

  /** The sample buffer of the clients. */
  class DataBuffer<T> {
    /** The deque's items, oldest first. */
    var items: seq<T>
    const maxlen: nat

    ghost predicate Valid()
      reads this
    {
      |items| <= maxlen
    }

    /** DataBuffer(maxlen) as the plotting clients define it. */
    constructor (maxlen: nat)
      ensures Valid() && items == [] && this.maxlen == maxlen
    {
      items := [];
      this.maxlen := maxlen;
    }

    /** DataBuffer(maxlen) of the TCP thread client, which first rounds maxlen up to a
        power of two. */
    constructor PowerOfTwo(maxlen: nat)
      requires maxlen >= 1
      ensures Valid() && items == [] && this.maxlen == NextPow2(maxlen)
    {
      items := [];
      this.maxlen := NextPow2(maxlen);
    }

    method Append(x: T)
      requires Valid()
      modifies this
      ensures Valid()
      ensures items == BoundedAppend(old(items), x, maxlen)
    {
      items := BoundedAppend(items, x, maxlen);
    }

    method Clear()
      modifies this
      ensures Valid() && items == []
    {
      items := [];
    }

    /** buffer[index]; None stands for an IndexError. */
    function Get(index: int): (r: Option<T>)
      reads this
      ensures r == PyIndex(items, index)
      ensures index == -1 && items != [] ==> r == Some(items[|items| - 1])
    {
      PyIndex(items, index)
    }

    function Length(): (n: nat)
      reads this
      ensures n == |items|
    {
      |items|
    }
  }
}
