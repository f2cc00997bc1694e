/**
 Captions locked to the pips: which frames of a stream carry a caption, and which one,
 as a function of frame times alone.
 */
module Captions {
  import opened Types

  datatype Caption = Tick | Tock

  function CeilDiv(a: nat, p: nat): nat
    requires p > 0
  {
    if a % p == 0 then a / p else a / p + 1
  }

  function CaptionOf(k: nat): Caption {
    if k % 2 == 1 then Tick else Tock
  }

  /** The caption of the frame that spans [pts, next). */
  function CaptionFor(pts: nat, next: nat, p: nat): Option<Caption>
    requires p > 0
  {
    var k := CeilDiv(pts, p);
    if k >= 1 && k * p < next then Some(CaptionOf(k)) else None
  }

  /** The number of the first pip at or after a time; pips count from one. */
  function NextPip(t: nat, p: nat): nat
    requires p > 0
  {
    if t == 0 then 1 else CeilDiv(t, p)
  }

  ghost predicate Contains(pts: nat, next: nat, p: nat, k: nat) {
    k >= 1 && pts <= k * p < next
  }

  lemma NonNegativeProduct(d: nat, p: nat)
    ensures d * p >= 0
  {
  }

  lemma MulLess(a: nat, b: nat, p: nat)
    requires a < b
    ensures a * p + p <= b * p
  {
    var d := b - a - 1;
    NonNegativeProduct(d, p);
    assert b * p == (a + 1 + d) * p == a * p + p + d * p;
  }

  lemma MulOrder(a: nat, b: nat, p: nat)
    requires p > 0
    ensures a <= b <==> a * p <= b * p
  {
    if a < b {
      MulLess(a, b, p);
    } else if b < a {
      MulLess(b, a, p);
    }
  }

  lemma CeilDivMeaning(a: nat, p: nat)
    requires p > 0
    ensures a <= CeilDiv(a, p) * p < a + p
  {
    assert a == a / p * p + a % p;
    assert (a / p + 1) * p == a / p * p + p;
  }

  lemma CeilDivLeast(a: nat, p: nat, k: nat)
    requires p > 0
    ensures a <= k * p <==> CeilDiv(a, p) <= k
  {
    var n := CeilDiv(a, p);
    CeilDivMeaning(a, p);
    if k < n {
      MulLess(k, n, p);
    } else {
      MulOrder(n, k, p);
    }
  }

  lemma NextPipMeaning(t: nat, p: nat, k: nat)
    requires p > 0 && k >= 1
    ensures NextPip(t, p) >= 1
    ensures t <= k * p <==> NextPip(t, p) <= k
  {
    CeilDivLeast(t, p, k);
    CeilDivLeast(t, p, 0);
    NonNegativeProduct(k, p);
  }

  /**
   A frame is captioned exactly when it contains a pip and does not start the stream. A frame
   of at most one pip interval that starts the stream contains none.
   */
  lemma CaptionedIff(pts: nat, next: nat, p: nat)
    requires p > 0
    ensures CaptionFor(pts, next, p).Some? <==> pts > 0 && exists k: nat :: Contains(pts, next, p, k)
    ensures next <= pts + p ==>
      (CaptionFor(pts, next, p).Some? <==> exists k: nat :: Contains(pts, next, p, k))
  {
    var k := CeilDiv(pts, p);
    NextPipMeaning(pts, p, 1);
    CeilDivMeaning(pts, p);
    if CaptionFor(pts, next, p).Some? {
      assert Contains(pts, next, p, k);
      assert pts == 0 ==> k == 0;
    }
    if found: nat :| Contains(pts, next, p, found) {
      NextPipMeaning(pts, p, found);
      MulOrder(NextPip(pts, p), found, p);
      MulOrder(1, found, p);
    }
  }

  /** The long first frame the general claim misses. */
  lemma LongFirstFrame()
    ensures Contains(0, 2, 1, 1) && CaptionFor(0, 2, 1).None?
  {
  }

  /** A frame of at most one interval moves the next pip by one if captioned, with that pip's caption, and else not at all. */
  lemma FrameAdvances(pts: nat, next: nat, p: nat)
    requires p > 0 && pts <= next <= pts + p
    ensures
      var k := NextPip(pts, p);
      NextPip(next, p) == (if CaptionFor(pts, next, p).Some? then k + 1 else k)
      && (CaptionFor(pts, next, p).Some? ==> CaptionFor(pts, next, p) == Some(CaptionOf(k)))
  {
    var k := NextPip(pts, p);
    NextPipMeaning(pts, p, 1);
    NextPipMeaning(next, p, k);
    NextPipMeaning(next, p, k + 1);
    NextPipMeaning(pts, p, k);
    assert (k + 1) * p == k * p + p;
    if k > 1 {
      NextPipMeaning(next, p, k - 1);
      NextPipMeaning(pts, p, k - 1);
    }
    NextPipMeaning(next, p, 1);
    assert CeilDiv(0, p) == 0;
  }

  /** The first pip is a Tick, and so is every other one after it. */
  lemma TicksAndTocks(pts: nat, next: nat, p: nat, k: nat)
    requires p > 0 && pts <= next <= pts + p && Contains(pts, next, p, k)
    ensures CaptionFor(pts, next, p) == Some(if (k - 1) % 2 == 0 then Tick else Tock)
  {
    CaptionOfContained(pts, next, p, k);
  }

  // Streams of frames: the i-th frame spans [edges[i], edges[i + 1])

  ghost predicate Frames(edges: seq<nat>, p: nat) {
    edges != [] && forall i :: 0 < i < |edges| ==> edges[i - 1] <= edges[i] <= edges[i - 1] + p
  }

  /** The captions of a stream, in order. */
  function Heard(edges: seq<nat>, p: nat): seq<Caption>
    requires p > 0
  {
    if |edges| <= 1 then []
    else
      var n := |edges| - 1;
      var caption := CaptionFor(edges[n - 1], edges[n], p);
      Heard(edges[..n], p) + (if caption.Some? then [caption.value] else [])
  }

  function PipCaptions(from: nat, end: nat): seq<Caption> {
    if end <= from then [] else PipCaptions(from, end - 1) + [CaptionOf(end - 1)]
  }

  lemma {:induction false} PipCaptionsAt(from: nat, end: nat)
    requires from <= end
    ensures |PipCaptions(from, end)| == end - from
    ensures forall j :: 0 <= j < end - from ==> PipCaptions(from, end)[j] == CaptionOf(from + j)
    decreases end
  {
    if from < end {
      PipCaptionsAt(from, end - 1);
    }
  }

  /**
   No drift: whatever the frame boundaries, the captions of a stream are those of the pips from
   the first at or after its start up to its end, one each, in order.
   */
  lemma {:induction false} CaptionsFollowPips(edges: seq<nat>, p: nat)
    requires p > 0 && Frames(edges, p)
    ensures
      var from, end := NextPip(edges[0], p), NextPip(edges[|edges| - 1], p);
      from <= end && Heard(edges, p) == PipCaptions(from, end)
  {
    if |edges| > 1 {
      var n := |edges| - 1;
      CaptionsFollowPips(edges[..n], p);
      FrameAdvances(edges[n - 1], edges[n], p);
    }
  }

  lemma CaptionAfter(k: nat)
    ensures CaptionOf(k) != CaptionOf(k + 1)
  {
  }

  lemma CaptionsAlternate(edges: seq<nat>, p: nat, j: nat)
    requires p > 0 && Frames(edges, p) && j + 1 < |Heard(edges, p)|
    ensures Heard(edges, p)[j] != Heard(edges, p)[j + 1]
  {
    CaptionsFollowPips(edges, p);
    PipsAlternate(NextPip(edges[0], p), NextPip(edges[|edges| - 1], p), j);
  }

  lemma PipsAlternate(from: nat, end: nat, j: nat)
    requires from <= end && j + 1 < |PipCaptions(from, end)|
    ensures PipCaptions(from, end)[j] != PipCaptions(from, end)[j + 1]
  {
    PipCaptionsAt(from, end);
    CaptionAfter(from + j);
  }

  lemma {:induction false} EdgesAscend(edges: seq<nat>, p: nat, i: nat, j: nat)
    requires Frames(edges, p) && i <= j < |edges|
    ensures edges[i] <= edges[j]
    decreases j
  {
    if i < j {
      EdgesAscend(edges, p, i, j - 1);
    }
  }

  /** Every pip the stream covers is in exactly one frame, and that frame carries its caption. */
  lemma {:induction false} PipCaptionedOnce(edges: seq<nat>, p: nat, k: nat) returns (i: nat)
    requires p > 0 && Frames(edges, p) && Contains(edges[0], edges[|edges| - 1], p, k)
    ensures i + 1 < |edges| && Contains(edges[i], edges[i + 1], p, k)
    ensures CaptionFor(edges[i], edges[i + 1], p) == Some(CaptionOf(k))
    ensures forall j :: 0 <= j && j + 1 < |edges| && Contains(edges[j], edges[j + 1], p, k) ==> j == i
    decreases |edges|
  {
    i := 0;
    while k * p >= edges[i + 1]
      invariant i + 1 < |edges| && edges[i] <= k * p
      decreases |edges| - i
    {
      i := i + 1;
    }
    forall j | 0 <= j && j + 1 < |edges| && Contains(edges[j], edges[j + 1], p, k)
      ensures j == i
    {
      if j < i {
        EdgesAscend(edges, p, j + 1, i);
      } else if i < j {
        EdgesAscend(edges, p, i + 1, j);
      }
    }
    CaptionOfContained(edges[i], edges[i + 1], p, k);
  }

  lemma CaptionOfContained(pts: nat, next: nat, p: nat, k: nat)
    requires p > 0 && pts <= next <= pts + p && Contains(pts, next, p, k)
    ensures CaptionFor(pts, next, p) == Some(CaptionOf(k))
  {
    CaptionedIff(pts, next, p);
    FrameAdvances(pts, next, p);
    NextPipMeaning(pts, p, k);
    NextPipMeaning(next, p, k);
  }
}
