/** Small vocabulary shared by the models of the device and of the GUI. */
module Common {
  datatype Option<+T> = None | Some(value: T)

  /** Where the audio is processed, as the configuration says. */
  datatype ExecMode = ExecArm | ExecDsp

  /** The chunks of a byte stream, glued back together. */
  function Flatten<T>(chunks: seq<seq<T>>): (all: seq<T>)
    ensures chunks == [] ==> all == []
  {
    if chunks == [] then [] else chunks[0] + Flatten(chunks[1..])
  }

  lemma {:induction false} FlattenAppend<T>(a: seq<seq<T>>, b: seq<seq<T>>)
    ensures Flatten(a + b) == Flatten(a) + Flatten(b)
  {
    if a == [] {
      assert a + b == b;
    } else {
      assert (a + b)[1..] == a[1..] + b;
      FlattenAppend(a[1..], b);
    }
  }

  lemma Regroup<T>(a: seq<T>, b: seq<T>, c: seq<T>)
    ensures a + (b + c) == a + b + c
  {
  }

  lemma FlattenSnoc<T>(a: seq<seq<T>>, x: seq<T>)
    ensures Flatten(a + [x]) == Flatten(a) + x
  {
    FlattenAppend(a, [x]);
    assert Flatten([x]) == x + Flatten<T>([]) == x;
  }

  /** The last `n` elements of `s`: what a deque with maxlen `n` keeps. */
  function Latest<T>(s: seq<T>, n: nat): (r: seq<T>)
    ensures |r| == if |s| < n then |s| else n
    ensures forall j :: 0 <= j < |r| ==> r[j] == s[|s| - |r| + j]
  {
    if |s| <= n then s else s[|s| - n..]
  }

  /** Appending to a bounded window and dropping from the left is the window of the longer history. */
  lemma LatestAppend<T>(s: seq<T>, more: seq<T>, n: nat)
    ensures Latest(Latest(s, n) + more, n) == Latest(s + more, n)
  {
    if |s| > n {
      assert s[|s| - n..] + more == (s + more)[|s| - n..];
    }
  }

  /** snprintf("%s") and strlcpy into a buffer of `cap` bytes keep at most cap - 1 characters. */
  function CopyInto(s: string, cap: nat): (r: string)
    requires cap > 0
    ensures r <= s
    ensures |s| < cap ==> r == s
    ensures |s| >= cap ==> |r| == cap - 1
  {
    if |s| < cap then s else s[..cap - 1]
  }

  // ---------- Division by a slot count that is not a literal ----------

  lemma Distribute(n: int, a: int, b: int)
    ensures n * (a - b) == n * a - n * b
  {
  }

  lemma Multiples(n: int, k: int)
    requires n > 0
    ensures k >= 1 ==> n * k >= n
    ensures k <= -1 ==> n * k <= -n
  {
  }

  /** Quotient and remainder are unique. */
  lemma DivMod(n: int, x: int, q: int, r: int)
    requires n > 0 && x == n * q + r && 0 <= r < n
    ensures x / n == q && x % n == r
  {
    var k := q - x / n;
    Distribute(n, q, x / n);
    Multiples(n, k);
    assert n * k == x % n - r;
  }

  lemma AddMultiple(n: int, d: int, q: int)
    requires n > 0
    ensures (d + n * q) % n == d % n
    ensures (d + n * q) / n == d / n + q
  {
    Distribute(n, d / n + q, q);
    DivMod(n, d + n * q, d / n + q, d % n);
  }
}
