/**
 * Segmentation and labelling of one ECG record (vf_data.py, Record.get_segments).
 *
 * The signal is cut into floor(n / segmentSize) contiguous windows of exactly
 * segmentSize samples; a single cursor walks the time-sorted annotation list and a
 * single flag tracks whether a ventricular episode is open.  A window is labelled 1
 * when an episode was open at its first sample or opened inside it.
 */
module Segmenter {
  import opened Wrappers

  /** One annotation as read from the record: (sample index, code mnemonic, rhythm text). */
  datatype Annotation = Annotation(time: int, code: string, rhythm: string)

  /** A loaded record; get_segments only reads it. */
  datatype Record = Record(name: string, signals: seq<int>, annotations: seq<Annotation>, sampleRate: real)

  /** The window record of vf_data.py (class Segment). */
  datatype Segment = Segment(record: string, vfLabel: int, signals: seq<int>, beginTime: int, duration: int)

  /** The pair of arrays that get_segments returns. */
  datatype Segmentation = Segmentation(segments: seq<seq<int>>, labels: seq<int>)

  datatype SegmentError = ZeroSegmentSize

  /** The cursor into the annotation list and the episode flag carried between windows. */
  datatype State = State(cursor: nat, inEpisode: bool)

  /** The window record with the default field values of Segment.__init__. */
  function NewSegment(): (s: Segment)
    ensures s.record == [] && s.vfLabel == 0 && s.signals == [] && s.beginTime == 0 && s.duration == 0
  {
    Segment("", 0, [], 0, 0)
  }

  // ---------------------------------------------------------------------------
  // Configuration arithmetic

  /** Conversion of a float to an integer: truncation toward zero. */
  function Truncate(x: real): (r: int)
    ensures x >= 0.0 ==> r as real <= x < r as real + 1.0
    ensures x < 0.0 ==> r as real - 1.0 < x <= r as real
  {
    if x >= 0.0 then x.Floor else -((-x).Floor)
  }

  /** The number of samples in one window: the sample rate times the duration, truncated. */
  function SegmentSize(sampleRate: real, duration: real): int
  {
    Truncate(sampleRate * duration)
  }

  /**
   * Number of windows: floor(n / size) for a positive size; for a negative size the
   * floor quotient is not positive and range() of it is empty.
   */
  function NumSegments(n: nat, size: int): (k: nat)
    ensures size > 0 ==> k * size <= n < (k + 1) * size
    ensures size <= 0 ==> k == 0
  {
    if size > 0 then n / size else 0
  }

  // ---------------------------------------------------------------------------
  // The episode state machine

  /** A rhythm text that starts with "(V": (VF, (VT, (VFL, (VER, ... */
  predicate Ventricular(rhythm: string)
  {
    "(V" <= rhythm
  }

  /** Outside an episode: the start marker or a ventricular rhythm opens one. */
  predicate Opens(a: Annotation)
  {
    a.code == "[" || Ventricular(a.rhythm)
  }

  /** Inside an episode: the end marker or any non-ventricular rhythm (also "") closes it. */
  predicate Closes(a: Annotation)
  {
    a.code == "]" || !Ventricular(a.rhythm)
  }

  /** The episode flag after one annotation. */
  function Step(inEpisode: bool, a: Annotation): bool
  {
    if inEpisode then !Closes(a) else Opens(a)
  }

  /** The episode flag after the first j annotations, independent of windowing. */
  function FlagAfter(anns: seq<Annotation>, j: nat): bool
    requires j <= |anns|
  {
    if j == 0 then false else Step(FlagAfter(anns, j - 1), anns[j - 1])
  }

  /**
   * The rule for every annotation: outside an episode it opens one exactly on "[" or a
   * rhythm starting "(V"; inside, it ends the episode exactly on "]" or any other rhythm.
   */
  lemma TransitionRules(a: Annotation)
    ensures Step(false, a) <==> (a.code == "[" || "(V" <= a.rhythm)
    ensures !Step(true, a) <==> (a.code == "]" || !("(V" <= a.rhythm))
  {
  }

  /** The rule on the annotation texts of the MIT-BIH and CU databases. */
  lemma TransitionExamples()
    ensures Step(false, Annotation(0, "+", "(VT"))
    ensures Step(false, Annotation(0, "+", "(VFL"))
    ensures Step(false, Annotation(0, "+", "(VER"))
    ensures Step(false, Annotation(0, "[", ""))
    ensures !Step(false, Annotation(0, "]", ""))
    ensures !Step(false, Annotation(0, "+", "(N"))
    ensures !Step(true, Annotation(0, "+", ""))
    ensures !Step(true, Annotation(0, "]", "(VF"))
    ensures Step(true, Annotation(0, "[", "(VF"))
    ensures !Step(true, Annotation(0, "+", "(AFIB"))
  {
    assert "(N"[1] != 'V' && "(AFIB"[1] != 'V';
  }

  // ---------------------------------------------------------------------------
  // Functional specification: one window, then the fold over windows

  datatype WindowResult = WindowResult(state: State, containsVf: bool)

  /**
   * Consumes, from st.cursor on, every annotation whose time is below segmentEnd and
   * stops at the first one that is not; label accumulates "an episode opened".
   */
  function ConsumeWindow(anns: seq<Annotation>, segmentEnd: int, st: State, labelled: bool): (r: WindowResult)
    requires st.cursor <= |anns|
    ensures st.cursor <= r.state.cursor <= |anns|
    ensures labelled ==> r.containsVf
    decreases |anns| - st.cursor
  {
    if st.cursor < |anns| && anns[st.cursor].time < segmentEnd then
      var a := anns[st.cursor];
      var opening := !st.inEpisode && Opens(a);
      ConsumeWindow(anns, segmentEnd, State(st.cursor + 1, Step(st.inEpisode, a)), labelled || opening)
    else
      WindowResult(st, labelled)
  }

  /**
   * A window consumes only annotations earlier than its end and stops at the first
   * one that is not.
   */
  lemma {:induction false} ConsumeWindowStops(anns: seq<Annotation>, segmentEnd: int, st: State, labelled: bool)
    requires st.cursor <= |anns|
    ensures var r := ConsumeWindow(anns, segmentEnd, st, labelled);
      && (r.state.cursor < |anns| ==> anns[r.state.cursor].time >= segmentEnd)
      && (forall j :: st.cursor <= j < r.state.cursor ==> anns[j].time < segmentEnd)
    decreases |anns| - st.cursor
  {
    if st.cursor < |anns| && anns[st.cursor].time < segmentEnd {
      var a := anns[st.cursor];
      ConsumeWindowStops(anns, segmentEnd, State(st.cursor + 1, Step(st.inEpisode, a)), labelled || (!st.inEpisode && Opens(a)));
    }
  }

  /** The labels of the first k windows and the state after them. */
  function Fold(anns: seq<Annotation>, size: int, k: nat): (r: (seq<int>, State))
    ensures |r.0| == k && r.1.cursor <= |anns|
  {
    if k == 0 then ([], State(0, false))
    else
      var prev := Fold(anns, size, k - 1);
      var w := ConsumeWindow(anns, k * size, prev.1, prev.1.inEpisode);
      (prev.0 + [if w.containsVf then 1 else 0], w.state)
  }

  /** The whole output of get_segments for a non-zero segment size. */
  function Segmentize(signals: seq<int>, anns: seq<Annotation>, size: int): Segmentation
  {
    var k := NumSegments(|signals|, size);
    Segmentation(Windows(signals, size, k), Fold(anns, size, k).0)
  }

  /** Samples [i*size, (i+1)*size) of a signal that holds at least i+1 windows. */
  function Window(signals: seq<int>, size: int, i: nat): seq<int>
  {
    if size > 0 && (i + 1) * size <= |signals| then signals[i * size..(i + 1) * size] else []
  }

  /** The first k windows of a signal. */
  function Windows(signals: seq<int>, size: int, k: nat): (ws: seq<seq<int>>)
    ensures |ws| == k
  {
    seq(k, i requires 0 <= i < k => Window(signals, size, i))
  }

  /** One more window appends window k. */
  lemma WindowsSnoc(signals: seq<int>, size: int, k: nat)
    ensures Windows(signals, size, k + 1) == Windows(signals, size, k) + [Window(signals, size, k)]
  {
    assert Windows(signals, size, k + 1)[..k] == Windows(signals, size, k);
  }

  lemma WindowFits(n: nat, size: int, i: nat)
    requires size > 0 && i < NumSegments(n, size)
    ensures 0 <= i * size && (i + 1) * size <= n
  {
    var k := NumSegments(n, size);
    assert i + 1 <= k;
    assert (i + 1) * size <= k * size;
  }

  /** Window i, for i below the number of windows, as a slice of the signal. */
  lemma WindowAt(signals: seq<int>, size: int, i: nat)
    requires size > 0 && i < NumSegments(|signals|, size)
    ensures 0 <= i * size && i * size + size <= |signals|
    ensures Window(signals, size, i) == signals[i * size..i * size + size]
  {
    WindowFits(|signals|, size, i);
    MulSucc(i, size);
  }

  lemma MulSucc(a: int, size: int)
    ensures (a + 1) * size == a * size + size
  {
  }

  /** One more window: the fold consumes the annotations before the end of window k. */
  lemma FoldNext(anns: seq<Annotation>, size: int, k: nat, segmentEnd: int)
    requires segmentEnd == k * size + size
    ensures var prev := Fold(anns, size, k);
      var w := ConsumeWindow(anns, segmentEnd, prev.1, prev.1.inEpisode);
      Fold(anns, size, k + 1) == (prev.0 + [if w.containsVf then 1 else 0], w.state)
  {
    MulSucc(k, size);
  }

  // ---------------------------------------------------------------------------
  // The imperative method

  /**
   * The inner while loop of get_segments: handles the annotations belonging to the
   * window that ends (exclusively) at segmentEnd.
   */
  method ConsumeAnnotations(annotations: seq<Annotation>, segmentEnd: int, iAnn0: nat, inVfEpisode0: bool)
    returns (iAnn: nat, inVfEpisode: bool, containsVf: bool)
    requires iAnn0 <= |annotations|
    ensures WindowResult(State(iAnn, inVfEpisode), containsVf)
         == ConsumeWindow(annotations, segmentEnd, State(iAnn0, inVfEpisode0), inVfEpisode0)
  {
    var nAnnotations := |annotations|;
    iAnn, inVfEpisode, containsVf := iAnn0, inVfEpisode0, inVfEpisode0;
    while iAnn < nAnnotations
      invariant iAnn0 <= iAnn <= nAnnotations
      invariant ConsumeWindow(annotations, segmentEnd, State(iAnn, inVfEpisode), containsVf)
             == ConsumeWindow(annotations, segmentEnd, State(iAnn0, inVfEpisode0), inVfEpisode0)
      decreases nAnnotations - iAnn
    {
      var Annotation(annTime, code, rhythmType) := annotations[iAnn];
      if annTime < segmentEnd {
        if inVfEpisode {
          if code == "]" || !("(V" <= rhythmType) {
            inVfEpisode := false;
          }
        } else {
          if code == "[" || "(V" <= rhythmType {
            containsVf, inVfEpisode := true, true;
          }
        }
        iAnn := iAnn + 1;
      } else {
        break;
      }
    }
  }

  /** Record.get_segments(duration). */
  method GetSegments(rec: Record, duration: real) returns (r: Result<Segmentation, SegmentError>)
    ensures r.Failure? <==> SegmentSize(rec.sampleRate, duration) == 0
    ensures r.Success? ==> r.value == Segmentize(rec.signals, rec.annotations, SegmentSize(rec.sampleRate, duration))
  {
    var nSamples := |rec.signals|;
    var segmentSize := SegmentSize(rec.sampleRate, duration);
    if segmentSize == 0 {
      return Failure(ZeroSegmentSize);
    }
    var nSegments := NumSegments(nSamples, segmentSize);
    var segments: seq<seq<int>> := [];
    var labels: seq<int> := [];

    var annotations := rec.annotations;
    var iAnn := 0;
    var inVfEpisode := false;
    for iSeg := 0 to nSegments
      invariant segments == Windows(rec.signals, segmentSize, iSeg)
      invariant Fold(annotations, segmentSize, iSeg) == (labels, State(iAnn, inVfEpisode))
    {
      WindowAt(rec.signals, segmentSize, iSeg);
      var segmentBegin := iSeg * segmentSize;
      var segmentEnd := segmentBegin + segmentSize;
      var segment := rec.signals[segmentBegin..segmentEnd];
      WindowsSnoc(rec.signals, segmentSize, iSeg);
      segments := segments + [segment];
      var containsVf;
      FoldNext(annotations, segmentSize, iSeg, segmentEnd);
      iAnn, inVfEpisode, containsVf := ConsumeAnnotations(annotations, segmentEnd, iAnn, inVfEpisode);
      labels := labels + [if containsVf then 1 else 0];
    }
    r := Success(Segmentation(segments, labels));
  }

  // ---------------------------------------------------------------------------
  // Shape of the output

  /** Every label is 0 or 1. */
  lemma {:induction false} FoldLabelsBinary(anns: seq<Annotation>, size: int, k: nat)
    ensures forall i :: 0 <= i < k ==> Fold(anns, size, k).0[i] == 0 || Fold(anns, size, k).0[i] == 1
  {
    if k > 0 {
      FoldLabelsBinary(anns, size, k - 1);
      var prev := Fold(anns, size, k - 1);
      var w := ConsumeWindow(anns, k * size, prev.1, prev.1.inEpisode);
      var labels := Fold(anns, size, k).0;
      assert labels == prev.0 + [if w.containsVf then 1 else 0];
      forall i | 0 <= i < k
        ensures labels[i] == 0 || labels[i] == 1
      {
        if i < k - 1 {
          assert labels[i] == prev.0[i];
          assert prev.0[i] == 0 || prev.0[i] == 1;
        } else {
          assert labels[i] == if w.containsVf then 1 else 0;
        }
      }
    }
  }

  /** Flattens a sequence of windows back into one sample sequence. */
  function Concat(ss: seq<seq<int>>): seq<int>
  {
    if ss == [] then [] else Concat(ss[..|ss| - 1]) + ss[|ss| - 1]
  }

  /** Window i of the segmentation is exactly samples [i*size, (i+1)*size). */
  lemma SegmentAt(signals: seq<int>, anns: seq<Annotation>, size: int, i: nat)
    requires size > 0 && i < |signals| / size
    ensures 0 <= i * size && i * size + size <= |signals|
    ensures Segmentize(signals, anns, size).segments[i] == signals[i * size..i * size + size]
  {
    WindowFits(|signals|, size, i);
    assert (i + 1) * size == i * size + size;
  }

  /**
   * floor(n / size) windows and as many labels; window i is exactly samples
   * [i*size, (i+1)*size); labels are 0 or 1.
   */
  lemma SegmentsShape(signals: seq<int>, anns: seq<Annotation>, size: int)
    requires size > 0
    ensures var out := Segmentize(signals, anns, size);
      && |out.segments| == |out.labels| == |signals| / size
      && (forall i :: 0 <= i < |out.segments| ==>
            && 0 <= i * size && i * size + size <= |signals|
            && out.segments[i] == signals[i * size..i * size + size]
            && |out.segments[i]| == size)
      && (forall i :: 0 <= i < |out.labels| ==> out.labels[i] == 0 || out.labels[i] == 1)
  {
    var out := Segmentize(signals, anns, size);
    FoldLabelsBinary(anns, size, NumSegments(|signals|, size));
    forall i | 0 <= i < |out.segments|
      ensures 0 <= i * size && i * size + size <= |signals|
      ensures out.segments[i] == signals[i * size..i * size + size]
    {
      SegmentAt(signals, anns, size, i);
    }
  }

  /** A negative segment size gives no windows at all. */
  lemma NegativeSizeIsEmpty(signals: seq<int>, anns: seq<Annotation>, size: int)
    requires size < 0
    ensures Segmentize(signals, anns, size) == Segmentation([], [])
  {
  }

  /** A signal shorter than one window gives empty outputs. */
  lemma ShortSignalIsEmpty(signals: seq<int>, anns: seq<Annotation>, size: int)
    requires |signals| < size
    ensures Segmentize(signals, anns, size) == Segmentation([], [])
  {
  }

  lemma AppendSlices(s: seq<int>, lo: nat, hi: nat)
    requires lo <= hi <= |s|
    ensures s[..lo] + s[lo..hi] == s[..hi]
  {
  }

  lemma ConcatSnoc(ss: seq<seq<int>>, w: seq<int>)
    ensures Concat(ss + [w]) == Concat(ss) + w
  {
    assert (ss + [w])[..|ss|] == ss;
  }

  /** The windows, concatenated, are the signal with its trailing remainder dropped. */
  lemma {:induction false} ConcatWindows(signals: seq<int>, size: int, k: nat)
    requires size > 0 && k <= NumSegments(|signals|, size)
    ensures k * size <= |signals|
    ensures Concat(Windows(signals, size, k)) == signals[..k * size]
  {
    if k > 0 {
      var lo := (k - 1) * size;
      assert lo + size == k * size && 0 <= lo && lo + size <= |signals| by {
        WindowFits(|signals|, size, k - 1);
      }
      ConcatWindows(signals, size, k - 1);
      WindowsSnoc(signals, size, k - 1);
      ConcatSnoc(Windows(signals, size, k - 1), Window(signals, size, k - 1));
      assert Window(signals, size, k - 1) == signals[lo..lo + size];
      AppendSlices(signals, lo, lo + size);
    }
  }

  lemma SegmentsCoverSignal(signals: seq<int>, anns: seq<Annotation>, size: int)
    requires size > 0
    ensures var k := |signals| / size;
      Concat(Segmentize(signals, anns, size).segments) == signals[..k * size]
      && |signals| - k * size < size
  {
    ConcatWindows(signals, size, NumSegments(|signals|, size));
  }

  /** The window records of the segmentation, one per window, in order. */
  function SegmentRecords(rec: Record, size: int): (ws: seq<Segment>)
    requires size > 0
    ensures |ws| == |rec.signals| / size
  {
    var k := NumSegments(|rec.signals|, size);
    var labels := Fold(rec.annotations, size, k).0;
    seq(k, i requires 0 <= i < k =>
      NewSegment().(record := rec.name, vfLabel := labels[i], signals := Window(rec.signals, size, i),
                    beginTime := i * size, duration := size))
  }

  /** Window record i covers samples [i*size, (i+1)*size) and carries label i. */
  lemma SegmentRecordAt(rec: Record, size: int, i: nat)
    requires size > 0 && i < |rec.signals| / size
    ensures var w := SegmentRecords(rec, size)[i];
      && w.record == rec.name && w.beginTime == i * size && w.duration == size
      && 0 <= w.beginTime <= w.beginTime + w.duration <= |rec.signals|
      && w.signals == rec.signals[w.beginTime..w.beginTime + w.duration]
      && w.vfLabel == Segmentize(rec.signals, rec.annotations, size).labels[i]
  {
    WindowFits(|rec.signals|, size, i);
    assert i * size + size == (i + 1) * size;
  }

  /** Consecutive window records touch: each begins where the previous one ends. */
  lemma SegmentRecordsContiguous(rec: Record, size: int, i: nat)
    requires size > 0 && 0 < i < |rec.signals| / size
    ensures var ws := SegmentRecords(rec, size);
      ws[i].beginTime == ws[i - 1].beginTime + ws[i - 1].duration
  {
    var ws := SegmentRecords(rec, size);
    assert ws[i].beginTime == i * size;
    assert ws[i - 1].beginTime == (i - 1) * size && ws[i - 1].duration == size;
    MulSucc(i - 1, size);
  }

  // ---------------------------------------------------------------------------
  // The cursor

  /** The state before window k (cursor and flag). */
  function StateBefore(anns: seq<Annotation>, size: int, k: nat): State
  {
    Fold(anns, size, k).1
  }

  lemma {:induction false} CursorMonotone(anns: seq<Annotation>, size: int, j: nat, k: nat)
    requires j <= k
    ensures StateBefore(anns, size, j).cursor <= StateBefore(anns, size, k).cursor <= |anns|
    decreases k - j
  {
    if j < k {
      CursorMonotone(anns, size, j, k - 1);
    }
  }

  /**
   * After k windows the cursor has passed exactly the annotations before it, all of
   * them earlier than the k-th window end, and stands on one at or after it.
   */
  lemma {:induction false} CursorBoundary(anns: seq<Annotation>, size: int, k: nat)
    requires size > 0
    ensures var c := StateBefore(anns, size, k).cursor;
      && (forall j :: 0 <= j < c ==> anns[j].time < k * size)
      && (k > 0 && c < |anns| ==> anns[c].time >= k * size)
  {
    if k > 0 {
      CursorBoundary(anns, size, k - 1);
      var prev := StateBefore(anns, size, k - 1);
      ConsumeWindowStops(anns, k * size, prev, prev.inEpisode);
      assert (k - 1) * size <= k * size;
    }
  }

  ghost predicate Sorted(anns: seq<Annotation>)
  {
    forall i, j :: 0 <= i < j < |anns| ==> anns[i].time <= anns[j].time
  }

  /**
   * With sorted annotations, window k consumes exactly those annotations whose time
   * lies in [k*size, (k+1)*size) (for window 0: below size): an annotation at the
   * window end itself is left for the next window.
   */
  lemma ConsumedByWindow(anns: seq<Annotation>, size: int, k: nat, j: nat)
    requires size > 0 && Sorted(anns) && j < |anns|
    ensures StateBefore(anns, size, k).cursor <= j < StateBefore(anns, size, k + 1).cursor
        <==> (k == 0 || k * size <= anns[j].time) && anns[j].time < (k + 1) * size
  {
    var c0 := StateBefore(anns, size, k).cursor;
    var c1 := StateBefore(anns, size, k + 1).cursor;
    CursorBoundary(anns, size, k);
    CursorBoundary(anns, size, k + 1);
    CursorMonotone(anns, size, k, k + 1);
    if j >= c1 {
      assert c1 < |anns| && anns[c1].time <= anns[j].time;
    }
    if k > 0 && c0 <= j {
      assert c0 < |anns| && anns[c0].time <= anns[j].time;
    }
  }

  /** With sorted annotations the run consumes exactly those before the last window end. */
  lemma ConsumedOverall(anns: seq<Annotation>, size: int, k: nat, j: nat)
    requires size > 0 && Sorted(anns) && j < |anns| && k > 0
    ensures j < StateBefore(anns, size, k).cursor <==> anns[j].time < k * size
  {
    var c := StateBefore(anns, size, k).cursor;
    CursorBoundary(anns, size, k);
    if j >= c {
      assert anns[c].time <= anns[j].time;
    }
  }

  // ---------------------------------------------------------------------------
  // Meaning of a label

  /** Some annotation j in [lo, hi) opens an episode: the flag was off before it and it opens. */
  ghost predicate OpenedIn(anns: seq<Annotation>, lo: nat, hi: nat)
    requires lo <= hi <= |anns|
    decreases hi - lo
  {
    lo < hi && ((!FlagAfter(anns, lo) && Opens(anns[lo])) || OpenedIn(anns, lo + 1, hi))
  }

  lemma {:induction false} OpenedInIff(anns: seq<Annotation>, lo: nat, hi: nat)
    requires lo <= hi <= |anns|
    ensures OpenedIn(anns, lo, hi) <==> exists j :: lo <= j < hi && !FlagAfter(anns, j) && Opens(anns[j])
    decreases hi - lo
  {
    if lo < hi {
      OpenedInIff(anns, lo + 1, hi);
      if exists j :: lo <= j < hi && !FlagAfter(anns, j) && Opens(anns[j]) {
        var j :| lo <= j < hi && !FlagAfter(anns, j) && Opens(anns[j]);
        assert j == lo || (lo + 1 <= j < hi && !FlagAfter(anns, j) && Opens(anns[j]));
      }
    }
  }

  /** The window-level state machine agrees with the flag computed over annotations alone. */
  lemma {:induction false} ConsumeWindowMeaning(anns: seq<Annotation>, segmentEnd: int, st: State, labelled: bool)
    requires st.cursor <= |anns| && st.inEpisode == FlagAfter(anns, st.cursor)
    ensures var r := ConsumeWindow(anns, segmentEnd, st, labelled);
      && r.state.inEpisode == FlagAfter(anns, r.state.cursor)
      && (r.containsVf <==> labelled || OpenedIn(anns, st.cursor, r.state.cursor))
    decreases |anns| - st.cursor
  {
    if st.cursor < |anns| && anns[st.cursor].time < segmentEnd {
      var a := anns[st.cursor];
      var opening := !st.inEpisode && Opens(a);
      var st' := State(st.cursor + 1, Step(st.inEpisode, a));
      ConsumeWindowMeaning(anns, segmentEnd, st', labelled || opening);
    }
  }

  lemma {:induction false} FlagBetweenWindows(anns: seq<Annotation>, size: int, k: nat)
    ensures StateBefore(anns, size, k).inEpisode == FlagAfter(anns, StateBefore(anns, size, k).cursor)
  {
    if k > 0 {
      FlagBetweenWindows(anns, size, k - 1);
      var prev := StateBefore(anns, size, k - 1);
      ConsumeWindowMeaning(anns, k * size, prev, prev.inEpisode);
    }
  }

  /**
   * Window k is labelled 1 iff the episode flag was set at its first sample or one of
   * the annotations it consumed opened an episode; a closing annotation inside the
   * window does not clear the label.
   */
  lemma LabelMeaning(anns: seq<Annotation>, size: int, k: nat)
    ensures var c0 := StateBefore(anns, size, k).cursor;
      var c1 := StateBefore(anns, size, k + 1).cursor;
      c0 <= c1 <= |anns| &&
      (Fold(anns, size, k + 1).0[k] == 1 <==>
        FlagAfter(anns, c0) || exists j :: c0 <= j < c1 && !FlagAfter(anns, j) && Opens(anns[j]))
  {
    var prev := StateBefore(anns, size, k);
    FlagBetweenWindows(anns, size, k);
    ConsumeWindowMeaning(anns, (k + 1) * size, prev, prev.inEpisode);
    OpenedInIff(anns, prev.cursor, StateBefore(anns, size, k + 1).cursor);
  }

  /** Each label of a longer run extends the labels of a shorter one. */
  lemma {:induction false} FoldPrefix(anns: seq<Annotation>, size: int, j: nat, k: nat)
    requires j <= k
    ensures Fold(anns, size, k).0[..j] == Fold(anns, size, j).0
    decreases k - j
  {
    if j < k {
      FoldPrefix(anns, size, j, k - 1);
      assert Fold(anns, size, k).0[..k - 1] == Fold(anns, size, k - 1).0;
    }
  }

  // ---------------------------------------------------------------------------
  // Causality

  lemma {:induction false} ConsumeWindowTruncated(anns: seq<Annotation>, m: nat, t: int, segmentEnd: int, st: State, labelled: bool)
    requires m <= |anns| && st.cursor <= m && segmentEnd <= t
    requires forall j :: m <= j < |anns| ==> anns[j].time >= t
    ensures ConsumeWindow(anns[..m], segmentEnd, st, labelled) == ConsumeWindow(anns, segmentEnd, st, labelled)
    decreases |anns| - st.cursor
  {
    if st.cursor < m && anns[st.cursor].time < segmentEnd {
      var a := anns[st.cursor];
      ConsumeWindowTruncated(anns, m, t, segmentEnd, State(st.cursor + 1, Step(st.inEpisode, a)), labelled || (!st.inEpisode && Opens(a)));
    }
  }

  lemma {:induction false} FoldTruncated(anns: seq<Annotation>, m: nat, t: int, size: int, k: nat)
    requires size > 0 && m <= |anns| && k * size <= t
    requires forall j :: m <= j < |anns| ==> anns[j].time >= t
    ensures Fold(anns[..m], size, k) == Fold(anns, size, k)
    ensures Fold(anns, size, k).1.cursor <= m
  {
    if k > 0 {
      assert (k - 1) * size <= k * size;
      FoldTruncated(anns, m, t, size, k - 1);
      var prev := Fold(anns, size, k - 1).1;
      ConsumeWindowTruncated(anns, m, t, k * size, prev, prev.inEpisode);
    }
  }

  /**
   * Removing every annotation at or after time t (a suffix of the list) leaves the
   * labels of all windows that end at or before t unchanged.
   */
  lemma Causality(signals: seq<int>, anns: seq<Annotation>, m: nat, t: int, size: int, k: nat)
    requires size > 0 && m <= |anns| && k <= |signals| / size && k * size <= t
    requires forall j :: m <= j < |anns| ==> anns[j].time >= t
    ensures Segmentize(signals, anns[..m], size).labels[..k] == Segmentize(signals, anns, size).labels[..k]
  {
    var n := NumSegments(|signals|, size);
    FoldPrefix(anns[..m], size, k, n);
    FoldPrefix(anns, size, k, n);
    FoldTruncated(anns, m, t, size, k);
  }

  // ---------------------------------------------------------------------------
  // Scenarios

  /** Without annotations every window is labelled 0. */
  lemma {:induction false} NoAnnotations(size: int, k: nat)
    ensures var r := Fold([], size, k);
      (forall i :: 0 <= i < k ==> r.0[i] == 0) && r.1 == State(0, false)
  {
    if k > 0 {
      NoAnnotations(size, k - 1);
    }
  }

  /** A single "(VF" at time 0 that is never closed labels every window 1. */
  lemma {:induction false} EpisodeNeverClosed(size: int, k: nat)
    requires size > 0
    ensures var r := Fold([Annotation(0, "+", "(VF")], size, k);
      (forall i :: 0 <= i < k ==> r.0[i] == 1) && r.1 == (if k == 0 then State(0, false) else State(1, true))
  {
    if k > 0 {
      EpisodeNeverClosed(size, k - 1);
      var anns := [Annotation(0, "+", "(VF")];
      assert Ventricular(anns[0].rhythm);
    }
  }

  /** An episode opened exactly at a window end belongs to the next window. */
  lemma OnsetAtWindowEnd(size: int)
    requires size > 0
    ensures Fold([Annotation(size, "+", "(VF")], size, 2).0 == [0, 1]
  {
    var anns := [Annotation(size, "+", "(VF")];
    assert Ventricular(anns[0].rhythm);
    assert Fold(anns, size, 0) == ([], State(0, false));
    assert ConsumeWindow(anns, 1 * size, State(0, false), false) == WindowResult(State(0, false), false);
    var f1 := Fold(anns, size, 1);
    assert f1.1 == State(0, false);
    assert f1.0 == [] + [0];
    assert ConsumeWindow(anns, 2 * size, State(1, true), true) == WindowResult(State(1, true), true);
    assert ConsumeWindow(anns, 2 * size, State(0, false), false) == WindowResult(State(1, true), true);
  }

  lemma MulMonotone(a: int, b: int, size: int)
    requires size > 0
    ensures a * size < b * size <==> a < b
  {
    if a < b {
      assert b * size == a * size + (b - a) * size;
    } else {
      assert a * size == b * size + (a - b) * size;
    }
  }

  /** The two-annotation scenario below: "(VF" at 2*size, "]" at 5*size. */
  function EpisodeAnnotations(size: int): seq<Annotation>
  {
    [Annotation(2 * size, "+", "(VF"), Annotation(5 * size, "]", "")]
  }

  /** The state the scenario is in before window k. */
  function EpisodeState(k: nat): State
  {
    if k <= 2 then State(0, false) else if k <= 5 then State(1, true) else State(2, false)
  }

  /** Window k - 1 of the scenario, entered in the expected state. */
  lemma EpisodeWindow(size: int, k: nat)
    requires size > 0 && k > 0
    ensures var st := EpisodeState(k - 1);
      ConsumeWindow(EpisodeAnnotations(size), k * size, st, st.inEpisode)
        == WindowResult(EpisodeState(k), 2 <= k - 1 <= 5)
  {
    var anns := EpisodeAnnotations(size);
    assert Ventricular(anns[0].rhythm);
    MulMonotone(2, k, size);
    MulMonotone(5, k, size);
    var st := EpisodeState(k - 1);
    if k == 3 {
      assert ConsumeWindow(anns, k * size, State(1, true), true) == WindowResult(State(1, true), true);
    } else if k == 6 {
      assert ConsumeWindow(anns, k * size, State(2, false), true) == WindowResult(State(2, false), true);
    }
  }

  /**
   * "(VF" at the start of window 2 and "]" at the start of window 5: windows 2 to 5 are
   * labelled 1.  Window 5 is labelled because the episode is still open at its first
   * sample; the closing annotation at exactly 5*size is consumed inside window 5.
   */
  lemma {:induction false} EpisodeOverWindows(size: int, k: nat)
    requires size > 0
    ensures var r := Fold(EpisodeAnnotations(size), size, k);
      && (forall i :: 0 <= i < k ==> (r.0[i] == 1 <==> 2 <= i <= 5))
      && r.1 == EpisodeState(k)
  {
    if k > 0 {
      var anns := EpisodeAnnotations(size);
      EpisodeOverWindows(size, k - 1);
      EpisodeWindow(size, k);
      var prev := Fold(anns, size, k - 1);
      var r := Fold(anns, size, k);
      var bit := if 2 <= k - 1 <= 5 then 1 else 0;
      assert r == (prev.0 + [bit], EpisodeState(k));
      forall i | 0 <= i < k
        ensures r.0[i] == 1 <==> 2 <= i <= 5
      {
        if i < k - 1 {
          assert r.0[i] == prev.0[i];
        } else {
          assert r.0[i] == bit;
        }
      }
    }
  }
}
