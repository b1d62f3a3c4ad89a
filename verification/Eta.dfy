/** The sliding-window speed estimate of `src/eta.rs`, over exact reals. */
module EtaModel {
  import opened Arith

  const SPEED_ESTIMATE_WINDOW := 5.0
  const MIN_SPEED_SAMPLE_SPAN := 1.0

  datatype Sample = Sample(at: real, downloaded: nat)

  /** Window lengths, and the earliest instant the clock can represent. */
  datatype Window = Window(window: real, minSpan: real, earliest: real)

  /** Start of the window that ends at `now`; `now` itself when that start cannot be represented. */
  function Cutoff(w: Window, now: real): real {
    if now - w.window >= w.earliest then now - w.window else now
  }

  predicate Progress(samples: seq<Sample>) {
    forall i, j :: 0 <= i < j < |samples| ==>
      samples[i].at < samples[j].at && samples[i].downloaded <= samples[j].downloaded
  }

  function Last(samples: seq<Sample>): Sample
    requires samples != []
  {
    samples[|samples| - 1]
  }

  function Part(amount: real, fraction: real): real {
    amount * fraction
  }

  /** Bytes at time `t` on the straight line from `a` to `b`. */
  function Between(a: Sample, b: Sample, t: real): real
    requires a.at < b.at
  {
    a.downloaded as real + Part(b.downloaded as real - a.downloaded as real, (t - a.at) / (b.at - a.at))
  }

  /** The interpolated baseline between the samples on both sides of the window's start. */
  function Interpolated(before: Sample, sample: Sample, cutoff: real): real
    requires before.at < sample.at
  {
    var delta := if sample.downloaded >= before.downloaded then sample.downloaded - before.downloaded else 0;
    before.downloaded as real + Part(delta as real, (cutoff - before.at) / (sample.at - before.at))
  }

  /** The progress curve: straight between samples, flat outside them. */
  function Curve(samples: seq<Sample>, t: real): real
    requires samples != [] && Progress(samples)
  {
    if |samples| == 1 || t <= samples[0].at then samples[0].downloaded as real
    else if t < samples[1].at then Between(samples[0], samples[1], t)
    else Curve(samples[1..], t)
  }

  function Later(a: real, b: real): real {
    if a <= b then b else a
  }

  /** Where the averaging starts: the window's start, or the first sample if that is later. */
  function BaseTime(w: Window, samples: seq<Sample>): real
    requires samples != []
  {
    Later(samples[0].at, Cutoff(w, Last(samples).at))
  }

  /** Average speed over the last window of the progress curve. */
  function AverageSpeed(w: Window, samples: seq<Sample>): Option<real>
    requires Progress(samples)
  {
    if samples == [] then None
    else
      var from := BaseTime(w, samples);
      var span := Last(samples).at - from;
      if span < w.minSpan || span <= 0.0 then None
      else Some((Last(samples).downloaded as real - Curve(samples, from)) / span)
  }

  /** All samples since the last regression, nothing trimmed. */
  function Extended(history: seq<Sample>, downloaded: nat, now: real): seq<Sample> {
    if history == [] || downloaded < Last(history).downloaded then [Sample(now, downloaded)]
    else if now <= Last(history).at then history[|history| - 1 := Sample(Last(history).at, downloaded)]
    else history + [Sample(now, downloaded)]
  }

  function Trimmed(samples: seq<Sample>, cutoff: real): seq<Sample> {
    if |samples| >= 2 && samples[1].at <= cutoff then Trimmed(samples[1..], cutoff) else samples
  }

  /** The deque after one record. */
  function Recorded(w: Window, samples: seq<Sample>, downloaded: nat, now: real): seq<Sample> {
    var grown := Extended(samples, downloaded, now);
    if samples != [] && downloaded >= Last(samples).downloaded && now <= Last(samples).at then grown
    else Trimmed(grown, Cutoff(w, now))
  }

  /** The window that ends at `now` starts before the clock's first instant. */
  predicate Early(w: Window, now: real) {
    now - w.window < w.earliest
  }

  /** Time the average is taken over. */
  function Span(w: Window, samples: seq<Sample>): real
    requires samples != []
  {
    Last(samples).at - BaseTime(w, samples)
  }

  ghost predicate SameTimes(a: seq<Sample>, b: seq<Sample>) {
    |a| == |b| && forall i :: 0 <= i < |a| ==> a[i].at == b[i].at
  }

  ghost predicate SpeedsAgree(w: Window, a: seq<Sample>, b: seq<Sample>) {
    Progress(a) && Progress(b) && AverageSpeed(w, a) == AverageSpeed(w, b)
  }

  /** The same samples with nothing downloaded before the last, and one byte at the last. */
  function Spike(history: seq<Sample>): seq<Sample> {
    seq(|history|, i requires 0 <= i < |history| => Sample(history[i].at, if i == |history| - 1 then 1 else 0))
  }

  /** No sample recorded early, other than the first, lies inside the current window. */
  ghost predicate WindowClear(w: Window, history: seq<Sample>) {
    forall i :: 1 <= i < |history| && Early(w, history[i].at) ==> history[i].at <= Cutoff(w, Last(history).at)
  }

  /** Sample `k` lay at or before the start of the window of one it does not follow. */
  ghost predicate Outlived(w: Window, history: seq<Sample>, k: nat)
    requires k < |history|
  {
    exists j :: k <= j < |history| && history[k].at <= Cutoff(w, history[j].at)
  }

  /** No sample after `k` has been outlived yet. */
  ghost predicate KeptAfter(w: Window, history: seq<Sample>, k: nat) {
    forall i, j :: k < i <= j < |history| ==> history[i].at > Cutoff(w, history[j].at)
  }

  /** Everything before the last outlived sample has been dropped, and nothing else. */
  ghost predicate Represents(w: Window, samples: seq<Sample>, history: seq<Sample>) {
    && Progress(history) && |samples| <= |history| && (history != [] ==> samples != [])
    && samples == history[|history| - |samples|..]
    && (0 < |samples| < |history| ==> Outlived(w, history, |history| - |samples|))
    && KeptAfter(w, history, |history| - |samples|)
  }
}

module Eta {
  import opened Arith
  import opened EtaModel

  lemma BetweenBounds(a: Sample, b: Sample, t: real)
    requires a.at < b.at && a.at <= t <= b.at && a.downloaded <= b.downloaded
    ensures a.downloaded as real <= Between(a, b, t) <= b.downloaded as real
    ensures t == a.at ==> Between(a, b, t) == a.downloaded as real
    ensures t == b.at ==> Between(a, b, t) == b.downloaded as real
  {
    hide Part;
    FractionBounds(t - a.at, b.at - a.at);
    PartBounds(b.downloaded as real - a.downloaded as real, (t - a.at) / (b.at - a.at));
  }

  lemma InterpolatedIsBetween(a: Sample, b: Sample, t: real)
    requires a.at < b.at && a.downloaded <= b.downloaded
    ensures Interpolated(a, b, t) == Between(a, b, t)
  {
    hide Part;
    assert (b.downloaded - a.downloaded) as real == b.downloaded as real - a.downloaded as real;
  }

  lemma FractionBounds(x: real, y: real)
    requires 0.0 <= x <= y && y > 0.0
    ensures 0.0 <= x / y <= 1.0 && (x == 0.0 ==> x / y == 0.0) && (x == y ==> x / y == 1.0)
  {
    assert (x / y) * y == x;
  }

  lemma PartBounds(amount: real, fraction: real)
    requires amount >= 0.0 && 0.0 <= fraction <= 1.0
    ensures 0.0 <= Part(amount, fraction) <= amount
    ensures fraction == 0.0 ==> Part(amount, fraction) == 0.0
    ensures fraction == 1.0 ==> Part(amount, fraction) == amount
  {
  }

  lemma ProgressTail(samples: seq<Sample>)
    requires Progress(samples) && samples != []
    ensures Progress(samples[1..])
  {
  }

  /** The curve never runs ahead of the newest sample. */
  lemma {:induction false} CurveBounds(samples: seq<Sample>, t: real)
    requires samples != [] && Progress(samples)
    ensures samples[0].downloaded as real <= Curve(samples, t) <= Last(samples).downloaded as real
  {
    hide Between;
    if |samples| > 1 && t > samples[0].at {
      if t < samples[1].at {
        BetweenBounds(samples[0], samples[1], t);
      } else {
        ProgressTail(samples);
        CurveBounds(samples[1..], t);
      }
    }
  }

  /** Dropping samples before `t` does not change the curve from `t` on. */
  lemma {:induction false} CurveDrop(samples: seq<Sample>, t: real, k: nat)
    requires Progress(samples) && k < |samples| && (k > 0 ==> samples[k].at <= t)
    ensures Progress(samples[k..]) && Curve(samples[k..], t) == Curve(samples, t)
  {
    hide Between;
    if k == 0 {
      assert samples[0..] == samples;
    } else {
      ProgressTail(samples);
      assert samples[1..][k - 1..] == samples[k..];
      assert k == 1 || samples[1].at < samples[k].at;
      CurveDrop(samples[1..], t, k - 1);
    }
  }

  /** The curve on the stretch between two neighbours. */
  lemma CurveAt(samples: seq<Sample>, j: nat, t: real)
    requires Progress(samples) && 0 < j < |samples| && samples[j - 1].at <= t < samples[j].at
    ensures Curve(samples, t) == Between(samples[j - 1], samples[j], t)
  {
    hide Between;
    CurveDrop(samples, t, j - 1);
    BetweenBounds(samples[j - 1], samples[j], t);
    assert samples[j - 1..][0] == samples[j - 1] && samples[j - 1..][1] == samples[j];
  }

  lemma CurveAtStart(samples: seq<Sample>)
    requires Progress(samples) && samples != []
    ensures Curve(samples, samples[0].at) == samples[0].downloaded as real
  {
  }

  lemma CurveAtEnd(samples: seq<Sample>)
    requires Progress(samples) && samples != []
    ensures Curve(samples, Last(samples).at) == Last(samples).downloaded as real
  {
    CurveDrop(samples, Last(samples).at, |samples| - 1);
  }

  /** Trimming a suffix of `h` cuts it to the last sample at or before the cutoff. */
  lemma {:induction false} TrimmedSuffix(h: seq<Sample>, from: nat, cutoff: real) returns (at: nat)
    requires from < |h|
    ensures from <= at < |h| && Trimmed(h[from..], cutoff) == h[at..]
    ensures at > from ==> h[at].at <= cutoff
    ensures at + 1 < |h| ==> h[at + 1].at > cutoff
    decreases |h| - from
  {
    if from + 1 < |h| && h[from + 1].at <= cutoff {
      assert h[from..][1..] == h[from + 1..];
      at := TrimmedSuffix(h, from + 1, cutoff);
    } else {
      at := from;
    }
  }

  lemma ExtendedProgress(history: seq<Sample>, downloaded: nat, now: real)
    requires Progress(history)
    ensures Progress(Extended(history, downloaded, now)) && Extended(history, downloaded, now) != []
  {
  }

  /** Recording keeps the deque a faithful stand-in for the whole history. */
  lemma RecordRepresents(w: Window, samples: seq<Sample>, history: seq<Sample>, downloaded: nat, now: real)
    requires Represents(w, samples, history)
    ensures Represents(w, Recorded(w, samples, downloaded, now), Extended(history, downloaded, now))
  {
    hide Outlived, KeptAfter, Cutoff, Trimmed;
    ExtendedProgress(history, downloaded, now);
    if history == [] || downloaded < Last(history).downloaded {
      SingleSample(w, Sample(now, downloaded));
    } else if now <= Last(history).at {
      SameInstant(w, samples, history, downloaded);
    } else {
      Appended(w, samples, history, Sample(now, downloaded));
    }
  }

  lemma SingleSample(w: Window, s: Sample)
    ensures Trimmed([s], Cutoff(w, s.at)) == [s] && Represents(w, [s], [s])
  {
  }

  lemma SameInstant(w: Window, samples: seq<Sample>, history: seq<Sample>, downloaded: nat)
    requires Represents(w, samples, history) && history != [] && downloaded >= Last(history).downloaded
    ensures Represents(w, samples[|samples| - 1 := Sample(Last(samples).at, downloaded)],
                       history[|history| - 1 := Sample(Last(history).at, downloaded)])
  {
    hide Cutoff, Outlived, KeptAfter;
    var h := history[|history| - 1 := Sample(Last(history).at, downloaded)];
    assert forall i :: 0 <= i < |history| ==> h[i].at == history[i].at;
    SameKept(w, history, h, |history| - |samples|);
    if |samples| < |history| {
      SameOutlived(w, history, h, |history| - |samples|);
    }
  }

  lemma SameKept(w: Window, history: seq<Sample>, h: seq<Sample>, k: nat)
    requires KeptAfter(w, history, k) && |h| == |history|
    requires forall i :: 0 <= i < |history| ==> h[i].at == history[i].at
    ensures KeptAfter(w, h, k)
  {
    hide Cutoff;
  }

  lemma SameOutlived(w: Window, history: seq<Sample>, h: seq<Sample>, k: nat)
    requires k < |history| <= |h| && Outlived(w, history, k)
    requires forall i :: 0 <= i < |history| ==> h[i].at == history[i].at
    ensures Outlived(w, h, k)
  {
    hide Cutoff;
    var j :| k <= j < |history| && history[k].at <= Cutoff(w, history[j].at);
    assert h[k].at <= Cutoff(w, h[j].at);
  }

  lemma Appended(w: Window, samples: seq<Sample>, history: seq<Sample>, s: Sample)
    requires Represents(w, samples, history) && history != []
    requires Last(history).at < s.at && Last(history).downloaded <= s.downloaded
    ensures Represents(w, Trimmed(samples + [s], Cutoff(w, s.at)), history + [s])
  {
    hide Trimmed, Cutoff, Progress, Outlived, KeptAfter, Represents;
    RepresentsParts(w, samples, history);
    var h, dropped := history + [s], |history| - |samples|;
    assert h[dropped..] == samples + [s];
    var at := TrimmedSuffix(h, dropped, Cutoff(w, s.at));
    ProgressSnoc(history, s);
    KeptSnoc(w, history, s, dropped, at);
    if at > dropped {
      OutlivedByLast(w, h, at);
    } else if dropped > 0 {
      SnocOutlived(w, history, s, dropped);
    }
    SuffixRepresents(w, h, at);
  }

  lemma SuffixRepresents(w: Window, h: seq<Sample>, k: nat)
    requires Progress(h) && k < |h| && KeptAfter(w, h, k) && (k > 0 ==> Outlived(w, h, k))
    ensures Represents(w, h[k..], h)
  {
    hide Progress, Outlived, KeptAfter;
    assert |h[k..]| == |h| - k;
  }

  lemma SnocOutlived(w: Window, history: seq<Sample>, s: Sample, k: nat)
    requires k < |history| && Outlived(w, history, k)
    ensures Outlived(w, history + [s], k)
  {
    hide Cutoff, Outlived;
    SameOutlived(w, history, history + [s], k);
  }

  lemma RepresentsParts(w: Window, samples: seq<Sample>, history: seq<Sample>)
    requires Represents(w, samples, history) && history != []
    ensures Progress(history) && 0 < |samples| <= |history| && samples == history[|history| - |samples|..]
    ensures |samples| < |history| ==> Outlived(w, history, |history| - |samples|)
    ensures KeptAfter(w, history, |history| - |samples|)
  {
  }

  lemma OutlivedByLast(w: Window, h: seq<Sample>, k: nat)
    requires k < |h| && h[k].at <= Cutoff(w, Last(h).at)
    ensures Outlived(w, h, k)
  {
  }

  lemma KeptSnoc(w: Window, history: seq<Sample>, s: Sample, dropped: nat, k: nat)
    requires KeptAfter(w, history, dropped) && dropped <= k && Progress(history + [s])
    requires k + 1 < |history + [s]| ==> (history + [s])[k + 1].at > Cutoff(w, s.at)
    ensures KeptAfter(w, history + [s], k)
  {
    hide Cutoff, Progress;
    var h := history + [s];
    forall i, j | k < i <= j < |h| ensures h[i].at > Cutoff(w, h[j].at) {
      if j < |history| {
        assert h[i] == history[i] && h[j] == history[j];
      } else {
        ProgressOrder(h, k + 1, i);
      }
    }
  }

  lemma ProgressSnoc(history: seq<Sample>, s: Sample)
    requires Progress(history) && history != [] && Last(history).at < s.at && Last(history).downloaded <= s.downloaded
    ensures Progress(history + [s])
  {
    assert forall i :: 0 <= i < |history| ==>
             history[i].at <= Last(history).at && history[i].downloaded <= Last(history).downloaded;
  }

  lemma OutlivedIsOutside(w: Window, history: seq<Sample>, k: nat)
    requires 0.0 <= w.window && Progress(history) && 0 < k < |history| && Outlived(w, history, k)
    requires WindowClear(w, history)
    ensures history[k].at <= Cutoff(w, Last(history).at)
  {
    hide Progress;
    var j :| k <= j < |history| && history[k].at <= Cutoff(w, history[j].at);
    assert history[j].at <= Last(history).at by { ProgressLast(history, j); }
    if Early(w, history[j].at) {
      assert Cutoff(w, history[j].at) == history[j].at;
    }
  }

  lemma ProgressLast(history: seq<Sample>, j: nat)
    requires Progress(history) && j < |history|
    ensures history[j].at <= Last(history).at
  {
  }

  lemma SuffixProgress(w: Window, samples: seq<Sample>, history: seq<Sample>)
    requires Represents(w, samples, history)
    ensures Progress(samples) && Progress(history) && (samples == [] <==> history == [])
  {
    hide KeptAfter, Outlived;
  }

  /** Trimming is invisible: the deque has the average speed of the whole history since the
      last regression. */
  lemma TrimmingIsInvisible(w: Window, samples: seq<Sample>, history: seq<Sample>)
    requires 0.0 <= w.window && Represents(w, samples, history) && WindowClear(w, history)
    ensures Progress(samples) && AverageSpeed(w, samples) == AverageSpeed(w, history)
  {
    hide Outlived, WindowClear, Curve, Cutoff, KeptAfter;
    if history != [] {
      var dropped := |history| - |samples|;
      assert Last(samples) == Last(history);
      if dropped > 0 {
        OutlivedIsOutside(w, history, dropped);
        assert history[0].at < history[dropped].at;
        CurveDrop(history, BaseTime(w, history), dropped);
      } else {
        assert samples == history;
      }
    }
  }

  /** The deque averages over the right span exactly then: a sample recorded early that lies in
      the current window makes the deque start later than the history does. */
  lemma SpanExact(w: Window, samples: seq<Sample>, history: seq<Sample>)
    requires 0.0 <= w.window && Represents(w, samples, history) && history != []
    ensures WindowClear(w, history) <==> BaseTime(w, samples) == BaseTime(w, history)
    ensures BaseTime(w, history) <= BaseTime(w, samples) && Last(samples) == Last(history)
  {
    hide Outlived, Progress;
    var k := |history| - |samples|;
    assert samples[0] == history[k] && Last(samples) == Last(history);
    ProgressOrder(history, 0, k);
    if WindowClear(w, history) {
      if k > 0 {
        OutlivedIsOutside(w, history, k);
      }
    } else {
      var i :| 1 <= i < |history| && Early(w, history[i].at) && history[i].at > Cutoff(w, Last(history).at);
      assert Cutoff(w, history[i].at) == history[i].at;
      assert i <= k;
      ProgressOrder(history, 0, i);
      ProgressOrder(history, i, k);
    }
  }

  /** With an early sample in the window the deque starts at its own first sample, which comes
      before the last, and the history starts before that. */
  lemma LateStart(w: Window, samples: seq<Sample>, history: seq<Sample>)
    requires 0.0 <= w.window && Represents(w, samples, history) && !WindowClear(w, history)
    ensures |samples| >= 2 && BaseTime(w, history) < BaseTime(w, samples) == samples[0].at < Last(samples).at
    ensures |history| >= 2 && BaseTime(w, history) <= history[|history| - 2].at
  {
    hide Progress, KeptAfter, WindowClear;
    var n, k := |history|, |history| - |samples|;
    var i := MissedSample(w, samples, history);
    assert samples[0] == history[k] && Last(samples) == history[n - 1];
    ProgressOrder(history, 0, i);
    ProgressOrder(history, i, k);
    ProgressOrder(history, k, n - 2);
    ProgressOrder(history, k, n - 1);
  }

  /** The sample recorded early in the window, and everything before it, was dropped; the sample
      kept first is not the last one. */
  lemma MissedSample(w: Window, samples: seq<Sample>, history: seq<Sample>) returns (i: nat)
    requires 0.0 <= w.window && Represents(w, samples, history) && !WindowClear(w, history)
    ensures 1 <= i <= |history| - |samples| <= |history| - 2 && Outlived(w, history, |history| - |samples|)
    ensures history[i].at > Cutoff(w, Last(history).at)
  {
    hide Progress;
    var n, k := |history|, |history| - |samples|;
    i :| 1 <= i < n && Early(w, history[i].at) && history[i].at > Cutoff(w, Last(history).at);
    assert Cutoff(w, history[i].at) == history[i].at;
    assert i <= k;
    ProgressOrder(history, i, k);
    var j :| k <= j < n && history[k].at <= Cutoff(w, history[j].at);
    assert k == n - 1 ==> j == n - 1;
  }

  lemma {:induction false} FlatCurve(samples: seq<Sample>, t: real)
    requires Progress(samples) && |samples| >= 2 && t <= samples[|samples| - 2].at
    requires forall i :: 0 <= i < |samples| - 1 ==> samples[i].downloaded == 0
    ensures Curve(samples, t) == 0.0
  {
    hide Part;
    if t > samples[0].at {
      if t < samples[1].at {
        FractionBounds(t - samples[0].at, samples[1].at - samples[0].at);
        PartBounds(0.0, (t - samples[0].at) / (samples[1].at - samples[0].at));
      } else {
        ProgressTail(samples);
        FlatCurve(samples[1..], t);
      }
    }
  }

  lemma SameTimesRepresents(w: Window, samples: seq<Sample>, history: seq<Sample>, h: seq<Sample>)
    requires Represents(w, samples, history) && history != [] && SameTimes(h, history) && Progress(h)
    ensures Represents(w, h[|h| - |samples|..], h) && (WindowClear(w, h) <==> WindowClear(w, history))
    ensures h != [] && BaseTime(w, h) == BaseTime(w, history) && Last(h).at == Last(history).at
  {
    hide Cutoff, Progress;
    var k := |history| - |samples|;
    SameKept(w, history, h, k);
    if k > 0 {
      SameOutlived(w, history, h, k);
    }
    SuffixRepresents(w, h, k);
  }

  lemma SpikeProgress(history: seq<Sample>)
    requires Progress(history)
    ensures Progress(Spike(history)) && SameTimes(Spike(history), history)
  {
  }

  lemma InverseDiffers(a: real, b: real)
    requires 0.0 < a < b
    ensures 1.0 / a != 1.0 / b
  {
    assert (1.0 / a) * a == 1.0 && (1.0 / b) * b == 1.0;
  }

  lemma SpikeDisagrees(w: Window, samples: seq<Sample>, history: seq<Sample>) returns (d: seq<Sample>, h: seq<Sample>)
    requires 0.0 <= w.window && Represents(w, samples, history) && history != []
    requires !WindowClear(w, history) && Span(w, history) >= w.minSpan
    ensures SameTimes(h, history) && Represents(w, d, h) && !SpeedsAgree(w, d, h)
  {
    hide Represents, WindowClear, Curve, Cutoff;
    h := Spike(history);
    RepresentsParts(w, samples, history);
    SpikeProgress(history);
    SameTimesRepresents(w, samples, history, h);
    d := h[|h| - |samples|..];
    LateStart(w, d, h);
    SuffixProgress(w, d, h);
    FlatCurve(h, BaseTime(w, h));
    CurveAtStart(d);
    InverseDiffers(Span(w, d), Span(w, h));
  }

  lemma TimesDecide(w: Window, history: seq<Sample>, d: seq<Sample>, h: seq<Sample>)
    requires 0.0 <= w.window && SameTimes(h, history) && Represents(w, d, h) && history != []
    requires WindowClear(w, history) || Span(w, history) < w.minSpan
    ensures SpeedsAgree(w, d, h)
  {
    hide Represents, Curve, Cutoff, Progress;
    SuffixProgress(w, d, h);
    if WindowClear(w, history) {
      TrimmingIsInvisible(w, d, h);
    } else {
      SpanExact(w, d, h);
    }
  }

  /** When trimming shows: for given times of recording, the deque and the whole history report
      the same speed whatever was downloaded, if and only if no sample recorded early lies in
      the current window or the history is too short for any speed. */
  lemma TrimmingExact(w: Window, samples: seq<Sample>, history: seq<Sample>)
    requires 0.0 <= w.window && Represents(w, samples, history) && history != []
    ensures WindowClear(w, history) || Span(w, history) < w.minSpan
       <==> forall d, h :: SameTimes(h, history) && Represents(w, d, h) ==> SpeedsAgree(w, d, h)
  {
    hide Represents, WindowClear, Span, SpeedsAgree, SameTimes;
    if WindowClear(w, history) || Span(w, history) < w.minSpan {
      forall d, h | SameTimes(h, history) && Represents(w, d, h) ensures SpeedsAgree(w, d, h) {
        TimesDecide(w, history, d, h);
      }
    } else {
      var d, h := SpikeDisagrees(w, samples, history);
    }
  }

  lemma ProgressOrder(history: seq<Sample>, i: nat, j: nat)
    requires Progress(history) && i <= j < |history|
    ensures history[i].at <= history[j].at && (i < j ==> history[i].at < history[j].at)
  {
  }

  /** A speed is never negative. */
  lemma SpeedNonnegative(w: Window, samples: seq<Sample>)
    requires Progress(samples) && AverageSpeed(w, samples).Some?
    ensures AverageSpeed(w, samples).value >= 0.0
  {
    CurveBounds(samples, BaseTime(w, samples));
  }

  /** With an early sample in the window trimming does change the answer. Here nothing before
      instant zero can be represented: of the samples (1 s, 0), (4 s, 0) and (6 s, 10) the first
      is dropped at 4 s but lies in the five-second window that ends at 6 s. */
  lemma EarlySamplesAreMissed(w: Window)
    requires w == Window(SPEED_ESTIMATE_WINDOW, MIN_SPEED_SAMPLE_SPAN, 0.0)
    ensures var history := Extended(Extended(Extended([], 0, 1.0), 0, 4.0), 10, 6.0);
            var samples := Recorded(w, Recorded(w, Recorded(w, [], 0, 1.0), 0, 4.0), 10, 6.0);
            && Progress(history) && AverageSpeed(w, history) == Some(2.0)
            && Progress(samples) && AverageSpeed(w, samples) == Some(5.0)
  {
    hide Between;
    var a, b, c := Sample(1.0, 0), Sample(4.0, 0), Sample(6.0, 10);
    EarlyRecords(w, a, b, c);
    assert Curve([a, b, c], 1.0) == 0.0;
    assert Curve([b, c], 4.0) == 0.0;
  }

  lemma EarlyRecords(w: Window, a: Sample, b: Sample, c: Sample)
    requires w == Window(5.0, 1.0, 0.0) && a == Sample(1.0, 0) && b == Sample(4.0, 0) && c == Sample(6.0, 10)
    ensures Extended(Extended(Extended([], 0, 1.0), 0, 4.0), 10, 6.0) == [a, b, c]
    ensures Recorded(w, Recorded(w, Recorded(w, [], 0, 1.0), 0, 4.0), 10, 6.0) == [b, c]
  {
    assert Extended([], 0, 1.0) == [a] && Recorded(w, [], 0, 1.0) == [a];
    assert Extended([a], 0, 4.0) == [a, b] && [a, b][1..] == [b] && Trimmed([b], 4.0) == [b];
    assert Recorded(w, [a], 0, 4.0) == [b];
    assert Extended([b], 10, 6.0) == [b, c] && Recorded(w, [b], 10, 6.0) == [b, c];
    assert Extended([a, b], 10, 6.0) == [a, b, c];
  }

  class EtaEstimator {
    var samples: seq<Sample>
    const window: Window
    ghost var history: seq<Sample>

    ghost predicate Valid()
      reads this
    {
      0.0 <= window.window && Represents(window, samples, history)
    }

    constructor (window: Window)
      requires 0.0 <= window.window
      ensures Valid() && this.window == window && history == []
    {
      this.window := window;
      samples, history := [], [];
    }

    /** The history grows by the new sample; only the deque is trimmed. */
    method Record(downloaded: nat, now: real)
      requires Valid()
      modifies this
      ensures Valid() && history == Extended(old(history), downloaded, now)
      ensures samples == Recorded(window, old(samples), downloaded, now)
    {
      hide Represents, Cutoff;
      ghost var next := Recorded(window, samples, downloaded, now);
      RecordRepresents(window, samples, history, downloaded, now);
      history := Extended(history, downloaded, now);
      if samples != [] {
        var last := samples[|samples| - 1];
        if downloaded < last.downloaded {
          samples := [];
        } else if now <= last.at {
          var most := if downloaded >= last.downloaded then downloaded else last.downloaded;
          samples := samples[|samples| - 1 := last.(downloaded := most)];
          assert samples == next;
          return;
        }
      }
      samples := samples + [Sample(now, downloaded)];
      samples := Trim(samples, Cutoff(window, now));
      assert samples == next;
    }

    static method Trim(samples: seq<Sample>, cutoff: real) returns (kept: seq<Sample>)
      ensures kept == Trimmed(samples, cutoff)
    {
      kept := samples;
      while |kept| >= 2
        invariant Trimmed(kept, cutoff) == Trimmed(samples, cutoff)
        decreases |kept|
      {
        if kept[1].at <= cutoff {
          kept := kept[1..];
        } else {
          break;
        }
      }
    }

    /** The scan for the window's start finds the point of the progress curve at that time. */
    method WindowStart() returns (start: Option<(real, real)>)
      requires Valid()
      ensures samples == [] <==> start == None
      ensures samples != [] ==> Progress(samples)
      ensures samples != [] ==> start == Some((Curve(samples, BaseTime(window, samples)), BaseTime(window, samples)))
    {
      hide Curve, Between, Interpolated, Represents;
      if samples == [] {
        return None;
      }
      SuffixProgress(window, samples, history);
      var last := samples[|samples| - 1];
      var cutoff := Cutoff(window, last.at);
      var i := 0;
      while i < |samples|
        invariant 0 <= i <= |samples| && forall j :: 0 <= j < i ==> samples[j].at <= cutoff
      {
        var sample := samples[i];
        if sample.at <= cutoff {
          i := i + 1;
          continue;
        }
        if i == 0 {
          CurveAtStart(samples);
          return Some((sample.downloaded as real, sample.at));
        }
        var before := samples[i - 1];
        CurveAt(samples, i, cutoff);
        BetweenBounds(before, sample, cutoff);
        InterpolatedIsBetween(before, sample, cutoff);
        if before.at < cutoff {
          return Some((Interpolated(before, sample, cutoff), cutoff));
        }
        return Some((before.downloaded as real, before.at));
      }
      CurveAtEnd(samples);
      return Some((last.downloaded as real, last.at));
    }

    /** The reported speed is the average over the deque; with a clear window that is the
        average over the whole history since the last regression. */
    method SpeedBytesPerSec() returns (speed: Option<real>)
      requires Valid()
      ensures Progress(samples) && Progress(history) && speed == AverageSpeed(window, samples)
      ensures WindowClear(window, history) ==> speed == AverageSpeed(window, history)
      ensures speed.Some? ==> speed.value >= 0.0
    {
      hide Curve, Represents, WindowClear, Cutoff;
      SuffixProgress(window, samples, history);
      var start := WindowStart();
      if WindowClear(window, history) {
        TrimmingIsInvisible(window, samples, history);
      }
      if samples == [] {
        return None;
      }
      var last := samples[|samples| - 1];
      var (bytes, from) := start.value;
      var span := last.at - from;
      if span < window.minSpan {
        return None;
      }
      if span <= 0.0 {
        return None;
      }
      CurveBounds(samples, from);
      var delta := if last.downloaded as real - bytes >= 0.0 then last.downloaded as real - bytes else 0.0;
      speed := Some(delta / span);
      SpeedNonnegative(window, samples);
    }

    /** The remaining bytes at the current speed; no estimate below one byte per second. */
    method Estimate(remaining: nat) returns (eta: Option<real>)
      requires Valid()
      ensures Progress(samples)
      ensures eta.Some? <==> AverageSpeed(window, samples).Some? && AverageSpeed(window, samples).value >= 1.0
      ensures eta.Some? ==> eta.value * AverageSpeed(window, samples).value == remaining as real
    {
      hide Represents, AverageSpeed;
      var speed := SpeedBytesPerSec();
      if speed.None? || speed.value < 1.0 {
        return None;
      }
      eta := Some(remaining as real / speed.value);
    }
  }
}
