/**
 * The routing list carried by a request while it travels towards the manager of a point:
 * a stack of gate indices, one pushed per forwarding hop and popped per hop on the way
 * back. Both generated packet classes store it as a heap-allocated `int` buffer with an
 * explicit size; this module gives its meaning as a sequence and the buffer loops that
 * both classes share.
 */
module RoutingList {
  import opened Wrappers

  /** n zeros: the fill of a freshly grown buffer. */
  function Zeros(n: nat): (z: seq<int>)
    ensures |z| == n && forall k :: 0 <= k < n ==> z[k] == 0
  {
    if n == 0 then [] else Zeros(n - 1) + [0]
  }

  /**
   * The list after setRoutingListArraySize(n): exactly n entries, the first min(old size, n)
   * kept and every entry beyond the old size zero.
   */
  function Resized(l: seq<int>, n: nat): (r: seq<int>)
    ensures |r| == n
    ensures forall k :: 0 <= k < n && k < |l| ==> r[k] == l[k]
    ensures forall k :: |l| <= k < n ==> r[k] == 0
  {
    if n <= |l| then l[..n] else l + Zeros(n - |l|)
  }

  /** getRoutingList(k): the index is unsigned, so a negative k is out of range like k >= size. */
  function Get(l: seq<int>, k: int): (r: Option<int>)
    ensures r.Some? <==> 0 <= k < |l|
    ensures r.Some? ==> r.value == l[k]
  {
    if 0 <= k < |l| then Some(l[k]) else None
  }

  /** setRoutingList(k, v): fails out of range, otherwise only entry k changes, to v. */
  function Set(l: seq<int>, k: int, v: int): (r: Option<seq<int>>)
    ensures r.Some? <==> 0 <= k < |l|
    ensures r.Some? ==> |r.value| == |l| && r.value[k] == v
    ensures r.Some? ==> forall j :: 0 <= j < |l| && j != k ==> r.value[j] == l[j]
  {
    if 0 <= k < |l| then Some(l[k := v]) else None
  }

  /** The forward leg: grow the list by one and write the new entry at the old size. */
  function Push(l: seq<int>, v: int): (r: seq<int>)
  {
    Resized(l, |l| + 1)[|l| := v]
  }

  /** The return leg: read the last entry and shrink the list by one. */
  function Pop(l: seq<int>): (r: (int, seq<int>))
    requires |l| > 0
  {
    (l[|l| - 1], Resized(l, |l| - 1))
  }

  /** Growing then writing at the old size is appending; popping undoes it. */
  lemma PushPop(l: seq<int>, v: int)
    ensures Push(l, v) == l + [v]
    ensures Pop(Push(l, v)) == (v, l)
  {
    var r := Push(l, v);
    assert |r| == |l| + 1;
    forall k | 0 <= k < |r| ensures r[k] == (l + [v])[k] {
    }
    assert Resized(r, |l|) == l;
  }

  /** Popping a non-empty list and pushing the popped entry back restores it. */
  lemma PopPush(l: seq<int>)
    requires |l| > 0
    ensures Push(Pop(l).1, Pop(l).0) == l
  {
    var (top, rest) := Pop(l);
    assert rest == l[..|l| - 1];
    PushPop(rest, top);
    assert rest + [top] == l;
  }

  /** Resizing to the current size changes nothing; shrinking after growing keeps the original. */
  lemma ResizedIdentities(l: seq<int>, m: nat)
    ensures Resized(l, |l|) == l
    ensures Resized(Resized(l, |l| + m), |l|) == l
  {
    assert Resized(l, |l|) == l[..|l|];
  }

  /**
   * The loop `for k < count: dst.setRoutingList(k, src.getRoutingList(k))`: the first count
   * entries of dst replaced by those of src, or a runtime error when either list is shorter
   * than count.
   */
  function CopyPrefix(dst: seq<int>, src: seq<int>, count: int): (r: Option<seq<int>>)
    ensures r.Some? <==> count <= 0 || (count <= |dst| && count <= |src|)
    ensures r.Some? && count > 0 ==> |r.value| == |dst| && r.value[..count] == src[..count] && r.value[count..] == dst[count..]
    ensures r.Some? && count <= 0 ==> r.value == dst
  {
    if count <= 0 then Some(dst)
    else if count <= |dst| && count <= |src| then Some(src[..count] + dst[count..])
    else None
  }

  /** The copy loop over list values, one entry at a time as the source runs it. */
  method CopyEntries(dst: seq<int>, src: seq<int>, count: int) returns (r: Option<seq<int>>)
    ensures r == CopyPrefix(dst, src, count)
  {
    var cur := dst;
    var k := 0;
    while k < count
      invariant 0 <= k && (count > 0 ==> k <= count) && (count <= 0 ==> k == 0)
      invariant k <= |dst| && k <= |src|
      invariant cur == src[..k] + dst[k..]
    {
      var v := Get(src, k);
      if v.None? {
        return None;
      }
      var next := Set(cur, k, v.value);
      if next.None? {
        return None;
      }
      assert next.value == src[..k + 1] + dst[k + 1..];
      cur := next.value;
      k := k + 1;
    }
    assert count > 0 ==> k == count;
    assert count <= 0 ==> cur == dst by {
      assert src[..0] + dst[0..] == dst;
    }
    return Some(cur);
  }

  /**
   * The copy loops of setRoutingListArraySize on a buffer: a new buffer of the requested
   * size, the old entries copied up to the smaller size, the rest filled with zeros.
   */
  method ResizedBuffer(a: array<int>, size: nat) returns (b: array<int>)
    ensures fresh(b)
    ensures b[..] == Resized(a[..], size)
  {
    b := new int[size];
    var sz := if a.Length < size then a.Length else size;
    var i := 0;
    while i < sz
      invariant 0 <= i <= sz
      invariant forall k :: 0 <= k < i ==> b[k] == a[k]
    {
      b[i] := a[i];
      i := i + 1;
    }
    i := sz;
    while i < size
      invariant sz <= i <= size
      invariant forall k :: 0 <= k < sz ==> b[k] == a[k]
      invariant forall k :: sz <= k < i ==> b[k] == 0
    {
      b[i] := 0;
      i := i + 1;
    }
    assert b[..] == Resized(a[..], size) by {
      var r := Resized(a[..], size);
      forall k | 0 <= k < size ensures b[k] == r[k] {
      }
    }
  }

  /** The copy loop of Packet::copy: a new buffer holding the same entries. */
  method CopiedBuffer(a: array<int>) returns (b: array<int>)
    ensures fresh(b)
    ensures b[..] == a[..]
  {
    b := new int[a.Length];
    var i := 0;
    while i < a.Length
      invariant 0 <= i <= a.Length
      invariant forall k :: 0 <= k < i ==> b[k] == a[k]
    {
      b[i] := a[i];
      i := i + 1;
    }
  }
}
