# Ventricular-fibrillation ECG dataset tools, modelled in Dafny

This project models the core of a Python toolkit. The toolkit builds a dataset of
ECG windows for detecting ventricular fibrillation (VF) and ventricular tachycardia
(VT). The model covers three parts, all over exact integers and reals:

- **Segmenter** (`segmenter.dfy`, `vf_data.py`). `Record.get_segments` cuts one
  record's signal into `floor(n / segment_size)` contiguous windows. It labels each
  window 1 or 0. The label is threaded through a single pass over the time-sorted
  annotations. The pass carries a cursor and an "episode open" flag from one window
  to the next. The loop is a `method` proved equal to a pure fold over windows, and
  the lemmas say what the fold means:
  - which annotations each window consumes;
  - when a label is 1;
  - that labels are causal (later annotations cannot change earlier windows);
  - the worked scenarios.
- **Rhythm statistics** (`rhythm_stats.dfy`, `statistics.py`). It covers:
  - the rhythm-description table and its tab-separated parse;
  - the refinement of "(VF" by amplitude and of "(VT" by heart rate;
  - the per-rhythm counting loop with its database filter;
  - the report in ascending name order.

  The two loops are methods proved equal to folds. The lemmas give the folds their
  meaning: counts and case sets per name, totals, and which table line wins.
- **Threshold-crossing features** (`crossing.dfy`, `vf_features.py`). It covers:
  - `threshold_crossing`, the indices where the signal changes side of a threshold;
  - the min–max normalisation;
  - the TCSC loop, which counts crossings per 3-second window;
  - the two crossing features of `extract_features`, for windows of real samples
    (resampled records) and of integer samples (360 Hz records, which are not
    resampled and keep the record's integer samples).

`wrappers.dfy` holds the `Option` and `Result` types.

Two behaviours of the code that are easy to miss:

- **Window 5 of the "(VF" then "]" scenario.** "(VF" opens at the start of window 2
  and "]" arrives at the start of window 5. Window 5 is labelled too: the flag is
  still set at its first sample, and the "]" at exactly `5 * size` is consumed inside
  window 5. See `Segmenter.EpisodeOverWindows`.
- **Empty input.** `threshold_crossing` and the normalisation read `samples[0]` and
  `min`/`max`, so an empty segment raises in the code. The model requires a
  non-empty segment.

## Model

| member | source | states |
|---|---|---|
| Segmenter.NewSegment | vf_data.py:29-35 | a fresh window record has empty name, label 0, begin time 0 and duration 0; its signal, None in the code, is the empty sequence |
| Segmenter.Truncate | vf_data.py:94 | `int()` of a real truncates toward zero: the result is within one unit of x, on the side of zero |
| Segmenter.NumSegments | vf_data.py:95 | for a positive size, k windows fit and k+1 do not (k·size ≤ n < (k+1)·size); a non-positive size gives no windows |
| Segmenter.TransitionRules | vf_data.py:116-121 | for every annotation: outside an episode, it opens one exactly when its code is "[" or its rhythm starts with "(V"; inside, it closes the episode exactly when its code is "]" or its rhythm does not start with "(V" (also "") |
| Segmenter.TransitionExamples | vf_data.py:116-121 | the rule on concrete annotations: "(VT", "(VFL", "(VER" and "[" open; "]" and "(N" do not; inside, "" , "(AFIB" and "]" close while "[" with "(VF" keeps the episode |
| Segmenter.ConsumeWindow | vf_data.py:113-124 | the cursor only moves forward and stays within the annotation list; a label set on entry stays set |
| Segmenter.ConsumeWindowStops | vf_data.py:113-124 | everything the cursor passes is earlier than the window end, and it stops on the first annotation at or after the end |
| Segmenter.Fold | vf_data.py:104-125 | after k windows there are k labels and the cursor is within the annotation list |
| Segmenter.FoldLabelsBinary | vf_data.py:125 | every label is 0 or 1 |
| Segmenter.FoldNext | vf_data.py:104-125 | window k is handled by consuming the annotations before `k·size + size`, from the state the first k windows left, and appending its label |
| Segmenter.WindowFits | vf_data.py:106-108 | every window index below the window count addresses a slice inside the signal |
| Segmenter.WindowAt | vf_data.py:106-108 | window i, below the window count, is the slice `[i·size, i·size + size)` of the signal |
| Segmenter.WindowsSnoc | vf_data.py:104-109 | the first k+1 windows are the first k windows followed by window k |
| Segmenter.ConsumeAnnotations | vf_data.py:113-124 | the inner while loop ends in the cursor, flag and label the window-consumption function specifies |
| Segmenter.GetSegments | vf_data.py:92-126 | fails exactly when `int(sample_rate·duration)` is 0 (the code's division by zero); otherwise returns the windows and labels of the fold over windows |
| Segmenter.SegmentAt | vf_data.py:104-109 | window i of the output is exactly samples [i·size, i·size + size) of the signal |
| Segmenter.SegmentsShape | vf_data.py:93-109 | floor(n/size) windows and as many labels; window i is exactly samples [i·size, (i+1)·size), of length size; every label is 0 or 1 |
| Segmenter.NegativeSizeIsEmpty | vf_data.py:95-104 | a negative segment size yields no windows and no labels |
| Segmenter.ShortSignalIsEmpty | vf_data.py:95-104 | a signal shorter than one window, the empty signal included, yields empty outputs |
| Segmenter.ConcatWindows | vf_data.py:104-109 | the first k windows, concatenated, are the first k·size samples |
| Segmenter.SegmentsCoverSignal | vf_data.py:104-109 | all windows concatenated are the signal minus its trailing remainder of fewer than size samples |
| Segmenter.SegmentRecords | vf_data.py:29-35 | one window record per window |
| Segmenter.SegmentRecordAt | vf_data.py:29-35 | window record i names the record, covers samples [i·size, (i+1)·size), begins at i·size, lasts size samples and carries window i's label |
| Segmenter.SegmentRecordsContiguous | vf_data.py:106-107 | each window record begins where the previous one ends |
| Segmenter.CursorMonotone | vf_data.py:101-122 | the annotation cursor never moves backwards from one window to a later one |
| Segmenter.CursorBoundary | vf_data.py:113-124 | after k windows every passed annotation is earlier than k·size and the next one is at or after it |
| Segmenter.ConsumedByWindow | vf_data.py:113-124 | for sorted annotations, window k consumes annotation j iff its time lies in [k·size, (k+1)·size) (below size for window 0); an annotation exactly at a window end belongs to the next window |
| Segmenter.ConsumedOverall | vf_data.py:113-124 | for sorted annotations, after k > 0 windows, exactly the annotations earlier than k·size have been consumed |
| Segmenter.OpenedInIff | vf_data.py:116-121 | the recursive "some annotation in [lo, hi) opened an episode" holds iff there is an index there where the flag was off and the annotation opens |
| Segmenter.ConsumeWindowMeaning | vf_data.py:110-124 | the window-level flag equals the flag computed over the consumed annotations alone, independent of windowing; the label is set iff it was set on entry or a consumed annotation opened an episode |
| Segmenter.FlagBetweenWindows | vf_data.py:102-124 | the flag carried into window k is the episode state after every annotation consumed so far |
| Segmenter.LabelMeaning | vf_data.py:110-125 | window k is labelled 1 iff an episode was open at its first sample or one of its annotations opened an episode; a closing annotation in the window does not clear the label |
| Segmenter.FoldPrefix | vf_data.py:104-125 | the labels of a shorter run are a prefix of the labels of a longer run |
| Segmenter.ConsumeWindowTruncated | vf_data.py:113-124 | annotations at or after a time t do not affect a window that ends at or before t |
| Segmenter.FoldTruncated | vf_data.py:104-125 | dropping all annotations at or after t leaves the state after the windows that end by t unchanged |
| Segmenter.Causality | vf_data.py:92-126 | the labels of windows ending by t are the same with or without the annotations at or after t |
| Segmenter.NoAnnotations | vf_data.py:104-125 | without annotations every window is labelled 0 |
| Segmenter.EpisodeNeverClosed | vf_data.py:104-125 | one "(VF" at time 0 that is never closed labels every window 1 |
| Segmenter.OnsetAtWindowEnd | vf_data.py:115 | a "(VF" at exactly the end of window 0 labels window 0 with 0 and window 1 with 1 |
| Segmenter.EpisodeWindow | vf_data.py:110-125 | in that scenario, each window entered in the expected state leaves the next expected state and is labelled 1 iff it is one of windows 2 to 5 |
| Segmenter.EpisodeOverWindows | vf_data.py:104-125 | "(VF" at 2·size and "]" at 5·size label windows 2 to 5 with 1 and all others with 0 |
| RhythmStats.TrimLeft | statistics.py:51-52 | the left trim never lengthens its input |
| RhythmStats.TrimRight | statistics.py:51-52 | the right trim never lengthens its input |
| RhythmStats.TrimLeftSuffix | statistics.py:51-52 | the left trim is a suffix of its input |
| RhythmStats.TrimRightPrefix | statistics.py:51-52 | the right trim is a prefix of its input |
| RhythmStats.Strip | statistics.py:48 | stripping never lengthens a string |
| RhythmStats.TrimLeftDropsSpace | statistics.py:51-52 | every character the left trim removes is whitespace, and what it leaves is empty or starts with non-whitespace |
| RhythmStats.TrimLeftStart | statistics.py:51-52 | the left trim is empty or starts with non-whitespace |
| RhythmStats.TrimRightDropsSpace | statistics.py:51-52 | every character the right trim removes is whitespace, and what it leaves is empty or ends with non-whitespace |
| RhythmStats.TrimRightEnd | statistics.py:51-52 | the right trim is empty or ends with non-whitespace |
| RhythmStats.StripSlice | statistics.py:48 | `strip()` keeps the slice of its input that starts after the leading whitespace |
| RhythmStats.StripEnds | statistics.py:48 | the result of `strip()` is empty or neither starts nor ends with whitespace |
| RhythmStats.StripDropsTrailing | statistics.py:48 | everything after the slice `strip()` keeps is whitespace |
| RhythmStats.StripIsSlice | statistics.py:48 | the input is the leading whitespace, then the result of `strip()`, then trailing whitespace; the result neither starts nor ends with whitespace |
| RhythmStats.FirstIndex | statistics.py:49 | the first index of the separator holds it and nothing before it does |
| RhythmStats.Split | statistics.py:48 | `split` gives at least one piece |
| RhythmStats.SplitPiecesSeparatorFree | statistics.py:48 | no piece of a split contains the separator |
| RhythmStats.SplitAtFirst | statistics.py:48 | the string is its part before the first separator, the separator and the rest, and the split is that first part followed by the split of the rest |
| RhythmStats.SplitCons | statistics.py:48 | a separator-free piece, the separator and a rest split into that piece followed by the split of the rest |
| RhythmStats.JoinSplit | statistics.py:48 | joining the pieces of a split restores the string |
| RhythmStats.SplitJoin | statistics.py:48 | splitting a join of separator-free pieces restores the pieces |
| RhythmStats.SplitFirst | statistics.py:49 | `split("\t", maxsplit=1)` gives two pieces iff a tab is present, the first is tab-free, and the pieces around one tab rebuild the line |
| RhythmStats.Entry | statistics.py:49-50 | a line yields an entry iff it contains a tab |
| RhythmStats.EntryFields | statistics.py:49-52 | the entry's name is the stripped text before the first tab, its description the stripped text after it |
| RhythmStats.UndefinedName | statistics.py:47-53 | a name no line defines has no description |
| RhythmStats.LastDefinitionWins | statistics.py:53 | a name is described by the last line that defines it |
| RhythmStats.LineWithoutTab | statistics.py:50 | a line without a tab changes nothing |
| RhythmStats.SpaceSeparatedLineIgnored | statistics.py:25 | the space-separated "(VT ventricular tachycardia" line defines nothing |
| RhythmStats.StripTrimmed | statistics.py:51-52 | text without whitespace at its ends is unchanged by strip |
| RhythmStats.StripLeading | statistics.py:52 | whitespace in front of trimmed text is removed by strip |
| RhythmStats.FirstIndexAfter | statistics.py:49 | the first tab after a tab-free name is at the name's length |
| RhythmStats.TabbedLine | statistics.py:49-53 | "name, tab, any whitespace, description" yields exactly that name and description |
| RhythmStats.DuplicateOverwritten | statistics.py:47-53 | of two tabbed lines for the same name (as table lines 9 and 27 are for "(AFIB"), the later description is kept |
| RhythmStats.ParseLinesStep | statistics.py:50-53 | one more line applies that line's entry, if any, to the map of the lines before it |
| RhythmStats.ParseDescriptions | statistics.py:47-53 | the table loop builds the map of the fold over the stripped table's lines |
| RhythmStats.Subtype | statistics.py:79-91 | "(VF" becomes "(VF.c" iff amplitude > 0.2, else "(VF.f"; "(VT" becomes "(VT.o" iff the rate is 0, "(VT.r" iff above 180, else "(VT.s"; other names are unchanged |
| RhythmStats.SubtypeIdempotent | statistics.py:79-91 | refining an already refined name changes nothing |
| RhythmStats.SubtypeBoundaries | statistics.py:79-91 | amplitude exactly 0.2 is fine VF, 180 bpm is slow VT, 180.5 is rapid VT, and rate 0 is other VT |
| RhythmStats.DbName | statistics.py:73 | the database name is the slash-free prefix of the record name up to its first slash, and the whole name when it has no slash |
| RhythmStats.TallyStep | statistics.py:71-94 | one more segment applies one loop iteration to the statistics of the segments before it |
| RhythmStats.CollectStatistics | statistics.py:65-94 | the counting loop ends in the statistics of the fold over the segments |
| RhythmStats.TallyTotal | statistics.py:71-94 | the segment total is the number of segments the filter lets through |
| RhythmStats.TallyNames | statistics.py:71-93 | counters and case sets exist for the same names, and a name has them iff some counted segment has that name |
| RhythmStats.UncountedHasNoCases | statistics.py:71-93 | a name no counted segment has has no case records |
| RhythmStats.TallyCounters | statistics.py:71-93 | each counter is the number of counted segments with its name, and each case set the set of their record names |
| RhythmStats.TallyMeaning | statistics.py:71-94 | the total is the number of counted segments; a name has a counter iff a counted segment has it; the counter is the number of such segments and the case set their record names |
| RhythmStats.FilteredOut | statistics.py:74-75 | a segment from a database not in a non-empty filter list changes no counter |
| RhythmStats.SumOverRemove | statistics.py:92-94 | removing one name from a sum of counters subtracts its counter |
| RhythmStats.SumOverSame | statistics.py:92-94 | a sum of counters depends only on the summed names' counters |
| RhythmStats.SumValuesIncrement | statistics.py:92-94 | incrementing one counter increments the sum of all counters by one |
| RhythmStats.AddTotal | statistics.py:92-94 | counting one segment keeps the total equal to the sum of the counters |
| RhythmStats.AddCases | statistics.py:92-93 | counting one segment keeps counters and case sets on the same names, and each case set non-empty and no larger than its counter |
| RhythmStats.AddConsistent | statistics.py:92-94 | counting one segment keeps the statistics consistent: total equal to the sum of the counters, counters and case sets on the same names, each case set between one record and its counter |
| RhythmStats.TallyInvariant | statistics.py:92-94 | every state of the counting loop is consistent: the segment total is the sum of all counters; counters and case sets have the same names; each case set holds at least one record and at most as many as the counter |
| RhythmStats.LessIrreflexive | statistics.py:97 | no name sorts before itself |
| RhythmStats.LessTransitive | statistics.py:97 | string order is transitive |
| RhythmStats.LessTotal | statistics.py:97 | of two distinct names one sorts first |
| RhythmStats.Insert | statistics.py:97 | inserting a new name keeps the names ascending and adds exactly that name |
| RhythmStats.SortedNames | statistics.py:97 | `sorted(keys)` is strictly ascending and holds exactly the keys |
| RhythmStats.Describe | statistics.py:98 | the description is the table's entry for the name, or the name itself when absent |
| RhythmStats.Report | statistics.py:96-102 | one row per counted name, in strictly ascending order, each with its counter, its number of cases and its description; every name has a row; the total line is the segment count |
| RhythmStats.RhythmReport | statistics.py:56-102 | a row exists for a name iff some counted segment has it, rows are ascending, each row carries that name's segment count, record count and description from the parsed table, and the total is the number of counted segments |
| Crossing.CrossingsUpTo | vf_features.py:10-22 | at most k crossings, each an index in [1, k) |
| Crossing.ThresholdCrossing | vf_features.py:10-22 | the loop returns the crossings of the whole segment |
| Crossing.CrossingIff | vf_features.py:13-21 | i is reported iff 1 ≤ i < n and samples i and i-1 lie on different sides of the threshold |
| Crossing.CrossingsIncreasing | vf_features.py:13-21 | the reported indices are strictly increasing |
| Crossing.CrossingsPrefix | vf_features.py:13-21 | the crossings of a prefix are a prefix of the crossings |
| Crossing.CrossingsAlternate | vf_features.py:12-21 | a sample's side is the first sample's side flipped once per crossing so far, so crossings alternate direction, starting away from the first sample's side |
| Crossing.OneSideWithoutCrossing | vf_features.py:12-22 | with no crossing, every sample lies on the first sample's side |
| Crossing.FirstCrossingLeavesStartSide | vf_features.py:12-21 | the first crossing lands on the side opposite the first sample |
| Crossing.NoCrossingIffOneSide | vf_features.py:10-22 | no crossing is reported iff all samples lie on the first sample's side |
| Crossing.WindowCounts | vf_features.py:58-73 | the TCSC loop returns the counts the window recursion specifies, and the TCI list stays empty |
| Crossing.TcscSumBound | vf_features.py:64-73 | the pushed counts sum to at most the crossings seen |
| Crossing.TcscLaterCountsPositive | vf_features.py:64-73 | there are no more counts than crossings; only the first count can be 0, because every later window was opened by a crossing |
| Crossing.TcscWindowsFit | vf_features.py:65-71 | after k pushes the window end, advanced by exactly one window per push, is still within the samples |
| Crossing.FarCrossingClosesOneWindow | vf_features.py:65-71 | a crossing far past the window end closes only the current window: crossings 1 and 20 of 30 samples with 3-sample windows give counts [1] |
| Crossing.MeanOrZero | vf_features.py:75-76 | the mean times the number of counts is their sum; no counts give 0.0 |
| Crossing.CrossingFeatures | vf_features.py:55-76 | two features: TCI is 0.0 and TCSC is the mean of the window counts of the crossings at 0.2 |
| Crossing.Min | vf_features.py:46 | the minimum is a sample and no sample is smaller |
| Crossing.Max | vf_features.py:46 | the maximum is a sample and no sample is larger |
| Crossing.Normalised | vf_features.py:46 | normalisation keeps the length |
| Crossing.ScaleRange | vf_features.py:46 | mapping [lo, hi] onto [0, 1] sends lo to 0, hi to 1 and everything between into [0, 1] |
| Crossing.NormalisedRange | vf_features.py:46 | every normalised sample is in [0, 1]; the minimum maps to 0 and the maximum to 1 |
| Crossing.ScaledSide | vf_features.py:46-55 | a scaled sample is at or above t iff the raw sample is at or above lo + t·(hi − lo) |
| Crossing.ScaledCrossingSide | vf_features.py:46-55 | a normalised sample is at or above 0.2 iff the raw one is at or above the raw threshold |
| Crossing.SameSidesSameCrossings | vf_features.py:10-22 | two signals whose samples lie on the same sides of their thresholds have the same crossings |
| Crossing.NormalisedCrossings | vf_features.py:46-55 | crossing 0.2 after normalisation is crossing min + 0.2·(max − min) before it |
| Crossing.AffineSameOrder | vf_features.py:46 | a gain a > 0 and an offset b keep every pairwise comparison of the samples |
| Crossing.SameOrderExtremes | vf_features.py:46 | two signals whose samples compare alike have their minimum and maximum at the same indices, and are flat together |
| Crossing.ScaleAffine | vf_features.py:46 | mapping onto [0, 1] gives a·x + b against a·lo + b, a·hi + b the value it gives x against lo, hi |
| Crossing.NormalisedAffine | vf_features.py:46 | normalisation removes offset and gain: a·s + b with a > 0 is non-flat when s is and normalises to the same samples |
| Crossing.FeatureList | vf_features.py:44-76 | the list built for a window of real samples has two entries and TCI is 0.0 |
| Crossing.ExtractFeatures | vf_features.py:44-76 | returns the list built: a flat window gives [0.0, 0.0]; otherwise TCI is 0.0 and TCSC is the mean window count of the normalised window's crossings at 0.2 |
| Crossing.FeatureListAffine | vf_features.py:44-76 | the feature list ignores offset and gain: a·s + b with a > 0 has the same features as s, flat or not |
| Crossing.FeaturesDiscarded | vf_features.py:44-78 | as written, every call yields None although a two-entry list was built; the list is printed exactly when its TCSC is not 0 |
| Crossing.FeaturesDiscardedExample | vf_features.py:44-78 | on [0.0, 1.0] at 360 Hz the list [0.0, 0.0] is built, and the call returns None and prints nothing |
| Crossing.IntMin | vf_features.py:46 | the minimum of an integer window is one of its samples and at most every sample |
| Crossing.IntMax | vf_features.py:46 | the maximum of an integer window is one of its samples and at least every sample |
| Crossing.NormalisedInt | vf_features.py:46 | the floor-division normalisation of an integer window keeps its length |
| Crossing.FloorScaleIndicator | vf_features.py:46 | (x − lo) // (hi − lo) for lo ≤ x ≤ hi is 1 exactly at x == hi > lo and 0 otherwise (also for hi == lo, numpy's integer division by zero) |
| Crossing.NormalisedIntIndicator | vf_features.py:46 | every sample of an integer window normalises to 0, except samples equal to the maximum of a non-flat window, which become 1 |
| Crossing.IntCrossings | vf_features.py:46-55 | on an integer window the crossings at 0.2 after normalisation are the crossings of the maximum level, and a flat window has none |
| Crossing.IntegerNormalisationExample | vf_features.py:46-55 | the integer window [0, 5, 10] normalises to [0, 0, 1] and crosses 0.2 at index 2 |
| Crossing.RealNormalisationExample | vf_features.py:46-55 | the same window normalised as reals is [0, 0.5, 1] and crosses 0.2 at index 1 |
| Crossing.ExtractFeaturesInt | vf_features.py:44-76 | on an integer window TCI is 0.0 and TCSC is the mean window count of the crossings of the maximum level, 0.0 for a flat window |

## Left out

- `Record.load`, `get_records`, the wfdb bindings and the file system (`vf_data.py:18-86`) are I/O. A record is an input value.
- `Record.get_total_time` (`vf_data.py:88-89`) is a one-line division that none of the modelled code calls.
- The default window duration of 8.0 seconds (`vf_data.py:92`) is not a separate case: the duration is a parameter of Segmenter.GetSegments, so both the explicit 8 (`vf_data.py:162`) and the default 8.0 (`vf_data_test.py:20`) are covered.
- The segment caches, pickling, `summary.csv`, multiprocessing and `load_all_segments` (`vf_data.py:129` onwards) are I/O and concurrency.
- scipy resampling to 360 Hz is floating-point signal processing, so windows are not resampled.
- The data set, `load_correction`, `get_samples`, the amplitude and the heart rate are not part of this model. The statistics loop receives each segment's record name, rhythm, amplitude and heart rate as inputs.
- Command-line parsing and `print` in `statistics.py` are left out. The report is returned as rows plus a total.
- The placeholder feature functions in `vf_features.py` (`pass` bodies) and the commented-out MAV code compute nothing.
- Floating point: samples, amplitude, heart rate and the normalisation use exact reals. numpy's float rounding, and `np.mean`'s float division, are not modelled. The NaN of a flat segment is modelled only through its effect: no crossings.
- `threshold_crossing` and `extract_features`: an empty segment raises in the code. The model requires a non-empty segment instead of modelling the exception.
- RhythmStats.Strip: the `str.isspace` set is the Unicode whitespace characters. Strings are sequences of code points with no other Unicode handling.
- RhythmStats.DuplicateOverwritten: this states the "(AFIB" override generally, for any table in which a later line redefines a name. The parse of the concrete 37-line table literal is not computed.
- The labels' integer arrays are sequences; numpy array types are not modelled.
- `vf_data_test.py` is not part of this model.

## Findings

| source | as written | input that shows it | evidently intended | confidence | as-written member | corrected member |
|---|---|---|---|---|---|---|
| vf_features.py:44-78 | `extract_features` builds its feature list but has no `return` statement, so every call yields None and `x_data` (`vf_data.py:214`) is a list of None | the window [0.0, 1.0] at 360 Hz: the list [0.0, 0.0] is built, None is returned and nothing is printed | return the feature list | not executed; high, the function body has no return | Crossing.FeaturesDiscardedExample | Crossing.ExtractFeatures |
| vf_features.py:46 | a 360 Hz window is not resampled (`vf_data.py:172-173`) and holds the integer samples collected at `vf_data.py:59-63`, so `/` is Python 2 integer division: every sample normalises to 0 except the maximum, which becomes 1 | the integer window [0, 5, 10] normalises to [0, 0, 1] and crosses 0.2 at index 2; normalised as reals it is [0, 0.5, 1] and crosses at index 1 | min–max normalisation onto [0, 1] in real arithmetic | not executed; medium, assumes the wfdb samples arrive as an integer array | Crossing.IntegerNormalisationExample | Crossing.NormalisedCrossings |
