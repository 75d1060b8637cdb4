/**
 * The brace-counting frame extractor at the heart of Stream.Next
 * (internal/openai/openai.go:82-99).
 *
 * The scan walks the buffer once, left to right, with a plain integer
 * counter: '{' increments it, '}' decrements it. When a '{' brings the
 * counter to 1 it remembers that index as `start`; when a '}' brings the
 * counter back to 0 the span from `start` through that '}' is a complete
 * object. The scan does not know about string literals, and a stray
 * leading '}' drives the counter below zero.
 *
 * Frame(b) is the declarative specification: the first index at which the
 * counter returns to 0 on a '}', and the first index at which a '{' lifts it
 * to 1. Scan is the loop itself, proved to compute Frame.
 */
module Frames {
  import opened Wrappers
  import opened Bytes

  const Open: byte := 123   // '{'
  const Close: byte := 125  // '}'

  /** The number of occurrences of c in s. */
  function Count(s: seq<byte>, c: byte): nat
  {
    if s == [] then 0
    else Count(s[..|s| - 1], c) + (if s[|s| - 1] == c then 1 else 0)
  }

  /** The counter's value after scanning s from a counter of 0. */
  function Depth(s: seq<byte>): int
  {
    Count(s, Open) - Count(s, Close)
  }

  /** The scan assigns `start := i` here: b[i] is '{' and lifts the counter to 1. */
  predicate OpensAt(b: seq<byte>, i: nat)
  {
    i < |b| && b[i] == Open && Depth(b[..i + 1]) == 1
  }

  /** The scan returns here: b[i] is '}' and brings the counter back to 0. */
  predicate ClosesAt(b: seq<byte>, i: nat)
  {
    i < |b| && b[i] == Close && Depth(b[..i + 1]) == 0
  }

  /**
   * A complete object as the scan understands it: it starts with '{', ends
   * with '}', holds as many '{' as '}', and every proper non-empty prefix
   * holds strictly more '{' than '}'. So it is the shortest balanced prefix
   * of itself.
   */
  predicate IsObject(x: seq<byte>)
  {
    && |x| > 0
    && x[0] == Open
    && x[|x| - 1] == Close
    && Count(x, Open) == Count(x, Close)
    && forall k :: 0 < k < |x| ==> Count(x[..k], Open) > Count(x[..k], Close)
  }

  /** The half-open interval [start, end) of the buffer that holds the object. */
  datatype Span = Span(start: nat, end: nat)

  /** The least index at or after k where the counter returns to 0 on a '}'. */
  function FirstCloseFrom(b: seq<byte>, k: nat): (r: Option<nat>)
    requires k <= |b|
    decreases |b| - k
    ensures r.Some? ==> k <= r.value && ClosesAt(b, r.value)
    ensures r.Some? ==> forall j :: k <= j < r.value ==> !ClosesAt(b, j)
    ensures r.None? ==> forall j :: k <= j < |b| ==> !ClosesAt(b, j)
  {
    if k == |b| then None
    else if ClosesAt(b, k) then Some(k)
    else FirstCloseFrom(b, k + 1)
  }

  /** The least index at or after k where a '{' lifts the counter to 1. */
  function FirstOpenFrom(b: seq<byte>, k: nat): (r: Option<nat>)
    requires k <= |b|
    decreases |b| - k
    ensures r.Some? ==> k <= r.value && OpensAt(b, r.value)
    ensures r.Some? ==> forall j :: k <= j < r.value ==> !OpensAt(b, j)
    ensures r.None? ==> forall j :: k <= j < |b| ==> !OpensAt(b, j)
  {
    if k == |b| then None
    else if OpensAt(b, k) then Some(k)
    else FirstOpenFrom(b, k + 1)
  }

  /**
   * The object the scan of Next cuts out of b, if any. `start` keeps the
   * source's default of 0 when no '{' ever lifted the counter to 1;
   * FrameIsFirstObject shows that this default is never used when an object
   * is found.
   */
  function Frame(b: seq<byte>): (r: Option<Span>)
    ensures r.Some? ==> r.value.start < r.value.end <= |b|
  {
    match FirstCloseFrom(b, 0)
    case None => None
    case Some(i) =>
      FrameShape(b, i);
      var start := match FirstOpenFrom(b, 0) case Some(s) => s case None => 0;
      Some(Span(start, i + 1))
  }

  /**
   * What the scan cuts out: nothing exactly when no '}' brings the counter
   * back to 0; otherwise the span ends at the first such '}', starts at the
   * first '{' that lifted the counter to 1, follows bytes over which the
   * counter ends at 0, and is itself an object.
   */
  lemma FrameIsFirstObject(b: seq<byte>)
    ensures Frame(b).None? <==> forall j :: 0 <= j < |b| ==> !ClosesAt(b, j)
    ensures Frame(b).Some? ==>
              var sp := Frame(b).value;
              && ClosesAt(b, sp.end - 1) && (forall j :: 0 <= j < sp.end - 1 ==> !ClosesAt(b, j))
              && OpensAt(b, sp.start) && (forall j :: 0 <= j < sp.start ==> !OpensAt(b, j))
              && Depth(b[..sp.start]) == 0
              && IsObject(b[sp.start..sp.end])
  {
    if FirstCloseFrom(b, 0).Some? {
      FrameShape(b, FirstCloseFrom(b, 0).value);
    }
  }

  /** One step of the counter. */
  lemma DepthStep(b: seq<byte>, i: nat)
    requires i < |b|
    ensures Depth(b[..i + 1]) == Depth(b[..i]) + (if b[i] == Open then 1 else if b[i] == Close then -1 else 0)
  {
    assert b[..i + 1][..i] == b[..i];
  }

  lemma {:induction false} CountConcat(x: seq<byte>, y: seq<byte>, c: byte)
    ensures Count(x + y, c) == Count(x, c) + Count(y, c)
  {
    if y == [] {
      assert x + y == x;
    } else {
      assert (x + y)[..|x + y| - 1] == x + y[..|y| - 1];
      CountConcat(x, y[..|y| - 1], c);
    }
  }

  /** The counter over a slice is the difference of the counters over two prefixes. */
  lemma DepthSlice(b: seq<byte>, s: nat, m: nat)
    requires s <= m <= |b|
    ensures Count(b[s..m], Open) == Count(b[..m], Open) - Count(b[..s], Open)
    ensures Count(b[s..m], Close) == Count(b[..m], Close) - Count(b[..s], Close)
  {
    assert b[..m] == b[..s] + b[s..m];
    CountConcat(b[..s], b[s..m], Open);
    CountConcat(b[..s], b[s..m], Close);
  }

  /** A counter that starts at 0 and has reached 1 did so at some '{'. */
  lemma {:induction false} ReachesOne(b: seq<byte>, i: nat)
    requires i <= |b| && Depth(b[..i]) >= 1
    ensures exists j :: 0 <= j < i && OpensAt(b, j)
  {
    assert b[..0] == [];
    DepthStep(b, i - 1);
    if Depth(b[..i - 1]) >= 1 {
      ReachesOne(b, i - 1);
    } else {
      assert OpensAt(b, i - 1);
    }
  }

  /** After the '{' at s and before the next close, the counter stays at least 1. */
  lemma {:induction false} StaysOpen(b: seq<byte>, s: nat, m: nat)
    requires OpensAt(b, s) && s < m <= |b|
    requires forall j :: s < j < m ==> !ClosesAt(b, j)
    ensures Depth(b[..m]) >= 1
  {
    if m > s + 1 {
      StaysOpen(b, s, m - 1);
      DepthStep(b, m - 1);
      assert !ClosesAt(b, m - 1);
    }
  }

  /** The span between the first open and the first close is an object. */
  lemma FrameShape(b: seq<byte>, i: nat)
    requires ClosesAt(b, i) && forall j :: 0 <= j < i ==> !ClosesAt(b, j)
    ensures FirstOpenFrom(b, 0).Some? && FirstOpenFrom(b, 0).value < i
    ensures Depth(b[..FirstOpenFrom(b, 0).value]) == 0
    ensures IsObject(b[FirstOpenFrom(b, 0).value..i + 1])
  {
    DepthStep(b, i);
    ReachesOne(b, i);
    var s := FirstOpenFrom(b, 0).value;
    SpanIsObject(b, s, i);
  }

  /** From a '{' that lifts the counter to 1 to the next '}' that drops it to 0. */
  lemma SpanIsObject(b: seq<byte>, s: nat, i: nat)
    requires OpensAt(b, s) && s < i && ClosesAt(b, i)
    requires forall j :: s < j < i ==> !ClosesAt(b, j)
    ensures Depth(b[..s]) == 0
    ensures IsObject(b[s..i + 1])
  {
    DepthStep(b, s);
    var x := b[s..i + 1];
    DepthSlice(b, s, i + 1);
    forall k | 0 < k < |x|
      ensures Count(x[..k], Open) > Count(x[..k], Close)
    {
      SpanPrefix(b, s, i, k);
    }
  }

  lemma SpanPrefix(b: seq<byte>, s: nat, i: nat, k: nat)
    requires OpensAt(b, s) && s < i < |b| && Depth(b[..s]) == 0
    requires forall j :: s < j < i ==> !ClosesAt(b, j)
    requires 0 < k <= i - s
    ensures Count(b[s..i + 1][..k], Open) > Count(b[s..i + 1][..k], Close)
  {
    assert b[s..i + 1][..k] == b[s..s + k];
    StaysOpen(b, s, s + k);
    DepthSlice(b, s, s + k);
  }

  /** A buffer that begins with an object yields exactly that object, whatever follows. */
  lemma ObjectAtFront(x: seq<byte>, y: seq<byte>)
    requires IsObject(x)
    ensures Frame(x + y) == Some(Span(0, |x|))
  {
    var b := x + y;
    assert b[..|x|] == x;
    assert b[..0] == [];
    DepthStep(b, 0);
    assert OpensAt(b, 0);
    assert ClosesAt(b, |x| - 1);
    forall j | 0 <= j < |x| - 1
      ensures !ClosesAt(b, j)
    {
      assert b[..j + 1] == x[..j + 1];
    }
  }

  /** A proper prefix of an object holds no object yet. */
  lemma PrefixHasNoFrame(x: seq<byte>, k: nat)
    requires IsObject(x) && k < |x|
    ensures Frame(x[..k]) == None
  {
    var p := x[..k];
    forall j | 0 <= j < |p|
      ensures !ClosesAt(p, j)
    {
      assert p[..j + 1] == x[..j + 1];
    }
  }

  /** The counter stays at 0 over bytes that are neither '{' nor '}'. */
  lemma {:induction false} NoBracesDepthZero(b: seq<byte>, j: nat)
    requires j <= |b| && forall k :: 0 <= k < j ==> b[k] != Open && b[k] != Close
    ensures Depth(b[..j]) == 0
  {
    if j == 0 {
      assert b[..0] == [];
    } else {
      NoBracesDepthZero(b, j - 1);
      DepthStep(b, j - 1);
    }
  }

  /**
   * When no '}' comes before the first '{', an object found in the buffer
   * starts at that first '{'; only the bytes before it are dropped.
   */
  lemma StartsAtFirstOpen(b: seq<byte>, j: nat)
    requires j < |b| && b[j] == Open
    requires forall k :: 0 <= k < j ==> b[k] != Open && b[k] != Close
    ensures Frame(b).Some? ==> Frame(b).value.start == j
  {
    NoBracesDepthZero(b, j);
    DepthStep(b, j);
    assert OpensAt(b, j);
  }

  /**
   * The scan does not resynchronise after a stray '}': an object that
   * follows it leaves the counter at -1 and is never found.
   */
  lemma StrayCloseHidesObject()
    ensures Frame([Close, Open, Close]) == None
  {
    var b := [Close, Open, Close];
    assert b[..0] == [];
    DepthStep(b, 0);
    DepthStep(b, 1);
    DepthStep(b, 2);
    assert !ClosesAt(b, 0) && !ClosesAt(b, 1) && !ClosesAt(b, 2);
  }

  /**
   * After a stray '}', a nested object "{{}}" is cut at its inner "{}":
   * bytes 2..4 leave the buffer as the object and the outer '{' is dropped.
   */
  lemma StrayCloseCutsInnerObject()
    ensures Frame([Close, Open, Open, Close, Close]) == Some(Span(2, 4))
  {
    var b := [Close, Open, Open, Close, Close];
    assert b[..0] == [];
    DepthStep(b, 0);
    DepthStep(b, 1);
    DepthStep(b, 2);
    DepthStep(b, 3);
    assert !ClosesAt(b, 0) && !ClosesAt(b, 1) && !ClosesAt(b, 2) && ClosesAt(b, 3);
    assert !OpensAt(b, 0) && !OpensAt(b, 1) && OpensAt(b, 2);
    assert FirstCloseFrom(b, 0) == Some(3);
    assert FirstOpenFrom(b, 0) == Some(2);
  }

  /**
   * The scanning loop of Next (internal/openai/openai.go:82-99), over the
   * buffer after the append. It returns at the first '}' that brings the
   * counter back to 0.
   */
  method Scan(b: seq<byte>) returns (found: bool, start: nat, end: nat)
    ensures found <==> Frame(b).Some?
    ensures found ==> Frame(b) == Some(Span(start, end))
  {
    var i, count := 0, 0;
    start := 0;
    while i < |b|
      invariant 0 <= i <= |b|
      invariant count == Depth(b[..i])
      invariant forall j :: 0 <= j < i ==> !ClosesAt(b, j)
      invariant (forall j :: 0 <= j < i ==> !OpensAt(b, j)) ==> count <= 0
      invariant (exists j :: 0 <= j < i && OpensAt(b, j)) ==>
                  && start < i && OpensAt(b, start) && count >= 1
                  && forall j :: 0 <= j < start ==> !OpensAt(b, j)
    {
      DepthStep(b, i);
      assert OpensAt(b, i) <==> b[i] == Open && count + 1 == 1;
      assert ClosesAt(b, i) <==> b[i] == Close && count - 1 == 0;
      if b[i] == Open {
        count := count + 1;
        if count == 1 {
          start := i;
        }
      }
      if b[i] == Close {
        count := count - 1;
        if count == 0 {
          assert exists j :: 0 <= j < i && OpensAt(b, j);
          assert FirstCloseFrom(b, 0) == Some(i);
          assert FirstOpenFrom(b, 0) == Some(start);
          found, end := true, i + 1;
          return;
        }
      }
      i := i + 1;
    }
    found, end := false, 0;
  }
}
