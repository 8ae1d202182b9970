/**
 * Rhythm statistics report (statistics.py): the rhythm description table, the
 * refinement of "(VF" and "(VT" into subtypes, the per-rhythm counting loop and the
 * ascending-name report.
 */
module RhythmStats {
  import opened Wrappers

  // ---------------------------------------------------------------------------
  // Python string helpers: isspace, strip, split

  /** The code-point ranges Python's str.isspace() accepts. */
  const SpaceRanges: seq<(char, char)> := [
    ('\t', '\r'), ('\U{1c}', '\U{1f}'), (' ', ' '), ('\U{85}', '\U{85}'), ('\U{a0}', '\U{a0}'),
    ('\U{1680}', '\U{1680}'), ('\U{2000}', '\U{200a}'), ('\U{2028}', '\U{2029}'),
    ('\U{202f}', '\U{202f}'), ('\U{205f}', '\U{205f}'), ('\U{3000}', '\U{3000}')]

  predicate InRanges(c: char, ranges: seq<(char, char)>)
  {
    ranges != [] && ((ranges[0].0 <= c <= ranges[0].1) || InRanges(c, ranges[1..]))
  }

  /** Python's str.isspace() for one character. */
  predicate IsSpace(c: char)
  {
    InRanges(c, SpaceRanges)
  }

  /** Every character of t is whitespace. */
  predicate AllSpace(t: string)
  {
    forall c :: c in t ==> IsSpace(c)
  }

  function TrimLeft(s: string): (r: string)
    ensures |r| <= |s|
  {
    if s != [] && IsSpace(s[0]) then TrimLeft(s[1..]) else s
  }

  function TrimRight(s: string): (r: string)
    ensures |r| <= |s|
  {
    if s != [] && IsSpace(s[|s| - 1]) then TrimRight(s[..|s| - 1]) else s
  }

  /** TrimLeft keeps a suffix of its input. */
  lemma {:induction false} TrimLeftSuffix(s: string)
    ensures TrimLeft(s) == s[|s| - |TrimLeft(s)|..]
  {
    if s != [] && IsSpace(s[0]) {
      TrimLeftSuffix(s[1..]);
      assert s[1..][|s| - 1 - |TrimLeft(s)|..] == s[|s| - |TrimLeft(s)|..];
    }
  }

  /** TrimRight keeps a prefix of its input. */
  lemma {:induction false} TrimRightPrefix(s: string)
    ensures TrimRight(s) == s[..|TrimRight(s)|]
  {
    if s != [] && IsSpace(s[|s| - 1]) {
      TrimRightPrefix(s[..|s| - 1]);
      assert s[..|s| - 1][..|TrimRight(s)|] == s[..|TrimRight(s)|];
    }
  }

  /** Python's str.strip() with no argument. */
  function Strip(s: string): (r: string)
    ensures |r| <= |s|
  {
    TrimRight(TrimLeft(s))
  }

  /** TrimLeft drops exactly the leading whitespace. */
  lemma {:induction false} TrimLeftDropsSpace(s: string)
    ensures var r := TrimLeft(s);
      && AllSpace(s[..|s| - |r|])
      && (r == [] || !IsSpace(r[0]))
  {
    if s != [] && IsSpace(s[0]) {
      TrimLeftDropsSpace(s[1..]);
      var r := TrimLeft(s);
      assert r == TrimLeft(s[1..]);
      assert s[..|s| - |r|] == [s[0]] + s[1..][..|s| - 1 - |r|];
    } else {
      assert s[..|s| - |TrimLeft(s)|] == [];
    }
  }

  /** TrimRight drops exactly the trailing whitespace. */
  lemma {:induction false} TrimRightDropsSpace(s: string)
    ensures var r := TrimRight(s);
      && AllSpace(s[|r|..])
      && (r == [] || !IsSpace(r[|r| - 1]))
  {
    if s != [] && IsSpace(s[|s| - 1]) {
      var init := s[..|s| - 1];
      TrimRightDropsSpace(init);
      var r := TrimRight(s);
      assert r == TrimRight(init);
      assert s[|r|..] == init[|r|..] + [s[|s| - 1]];
    } else {
      assert s[|TrimRight(s)|..] == [];
    }
  }

  /** Strip keeps the slice of s that starts after the leading whitespace. */
  lemma StripSlice(s: string)
    ensures var i := |s| - |TrimLeft(s)|;
      var r := Strip(s);
      i + |r| <= |s| && r == s[i..i + |r|]
  {
    var l := TrimLeft(s);
    var i := |s| - |l|;
    var r := TrimRight(l);
    TrimLeftSuffix(s);
    TrimRightPrefix(l);
    assert r == l[..|r|];
  }

  lemma {:induction false} TrimLeftStart(s: string)
    ensures TrimLeft(s) == [] || !IsSpace(TrimLeft(s)[0])
  {
    if s != [] && IsSpace(s[0]) {
      TrimLeftStart(s[1..]);
    }
  }

  lemma {:induction false} TrimRightEnd(s: string)
    ensures var r := TrimRight(s); r == [] || !IsSpace(r[|r| - 1])
  {
    if s != [] && IsSpace(s[|s| - 1]) {
      TrimRightEnd(s[..|s| - 1]);
    }
  }

  /** Strip leaves a text that neither begins nor ends with whitespace. */
  lemma StripEnds(s: string)
    ensures var r := Strip(s);
      r == [] || (!IsSpace(r[0]) && !IsSpace(r[|r| - 1]))
  {
    var l := TrimLeft(s);
    var r := TrimRight(l);
    TrimLeftStart(s);
    TrimRightEnd(l);
    if r != [] {
      TrimRightPrefix(l);
      assert r == l[..|r|];
      assert r[0] == l[0];
    }
  }

  /** Strip removes only whitespace after the slice it keeps. */
  lemma StripDropsTrailing(s: string)
    ensures var i := |s| - |TrimLeft(s)|;
      i + |Strip(s)| <= |s| && AllSpace(s[i + |Strip(s)|..])
  {
    var l := TrimLeft(s);
    var i := |s| - |l|;
    var r := TrimRight(l);
    TrimRightDropsSpace(l);
    TrimLeftSuffix(s);
    assert s[i + |r|..] == l[|r|..];
  }

  /** A slice of s together with what lies before and after it makes up s. */
  lemma SliceAround(s: string, i: nat, r: string)
    requires i + |r| <= |s| && r == s[i..i + |r|]
    ensures s == s[..i] + r + s[i + |r|..]
  {
    assert s[..i] + r == s[..i + |r|];
  }

  /**
   * Strip keeps a contiguous middle slice of s that neither begins nor ends with
   * whitespace, and removes only whitespace on either side of it.
   */
  lemma StripIsSlice(s: string)
    ensures var i := |s| - |TrimLeft(s)|;
      var r := Strip(s);
      && i + |r| <= |s| && s == s[..i] + r + s[i + |r|..]
      && AllSpace(s[..i])
      && AllSpace(s[i + |r|..])
      && (r == [] || (!IsSpace(r[0]) && !IsSpace(r[|r| - 1])))
  {
    var i := |s| - |TrimLeft(s)|;
    var r := Strip(s);
    assert i + |r| <= |s| && s == s[..i] + r + s[i + |r|..] by {
      StripSlice(s);
      SliceAround(s, i, r);
    }
    assert AllSpace(s[..i]) by {
      TrimLeftDropsSpace(s);
    }
    assert AllSpace(s[i + |r|..]) by {
      StripDropsTrailing(s);
    }
    assert r == [] || (!IsSpace(r[0]) && !IsSpace(r[|r| - 1])) by {
      StripEnds(s);
    }
  }

  /** Index of the first occurrence of sep in s. */
  function FirstIndex(s: string, sep: char): (i: nat)
    requires sep in s
    ensures i < |s| && s[i] == sep && sep !in s[..i]
  {
    if s[0] == sep then 0 else 1 + FirstIndex(s[1..], sep)
  }

  /** Splitting at every occurrence of a one-character separator. */
  function Split(s: string, sep: char): (r: seq<string>)
    ensures |r| >= 1
    decreases |s|
  {
    if sep in s then
      var i := FirstIndex(s, sep);
      [s[..i]] + Split(s[i + 1..], sep)
    else [s]
  }

  /** Python's sep.join(pieces). */
  function Join(pieces: seq<string>, sep: char): string
    requires |pieces| >= 1
  {
    if |pieces| == 1 then pieces[0] else pieces[0] + [sep] + Join(pieces[1..], sep)
  }

  /** Splitting a separator-free piece, the separator and a rest gives the piece first. */
  lemma SplitCons(first: string, sep: char, rest: string)
    requires sep !in first
    ensures Split(first + [sep] + rest, sep) == [first] + Split(rest, sep)
  {
    var s := first + [sep] + rest;
    assert s[|first|] == sep;
    FirstIndexAfter(first, sep, rest);
    assert s[..|first|] == first;
    assert s[|first| + 1..] == rest;
  }

  /** A text holding the separator is its first piece, the separator and the rest. */
  lemma SplitAtFirst(s: string, sep: char)
    requires sep in s
    ensures var i := FirstIndex(s, sep);
      && s == s[..i] + [sep] + s[i + 1..] && sep !in s[..i]
      && Split(s, sep) == [s[..i]] + Split(s[i + 1..], sep)
  {
    var i := FirstIndex(s, sep);
    assert s == s[..i] + [sep] + s[i + 1..];
    SplitCons(s[..i], sep, s[i + 1..]);
  }

  /** No piece of a split contains the separator. */
  lemma {:induction false} SplitPiecesSeparatorFree(s: string, sep: char)
    ensures forall piece :: piece in Split(s, sep) ==> sep !in piece
    decreases |s|
  {
    if sep in s {
      var i := FirstIndex(s, sep);
      SplitAtFirst(s, sep);
      SplitPiecesSeparatorFree(s[i + 1..], sep);
    } else {
      assert Split(s, sep) == [s];
    }
  }

  lemma {:induction false} JoinSplit(s: string, sep: char)
    ensures Join(Split(s, sep), sep) == s
    decreases |s|
  {
    if sep in s {
      var i := FirstIndex(s, sep);
      var first, rest := s[..i], s[i + 1..];
      SplitAtFirst(s, sep);
      JoinSplit(rest, sep);
      var ps := Split(rest, sep);
      assert Split(s, sep) == [first] + ps;
      assert ([first] + ps)[1..] == ps;
      assert Join([first] + ps, sep) == first + [sep] + Join(ps, sep);
    } else {
      assert Split(s, sep) == [s];
    }
  }

  lemma SplitJoinStep(first: string, tail: seq<string>, sep: char)
    requires |tail| >= 1 && sep !in first
    ensures Split(Join([first] + tail, sep), sep) == [first] + Split(Join(tail, sep), sep)
  {
    assert ([first] + tail)[1..] == tail;
    assert Join([first] + tail, sep) == first + [sep] + Join(tail, sep);
    SplitCons(first, sep, Join(tail, sep));
  }

  lemma {:induction false} SplitJoin(pieces: seq<string>, sep: char)
    requires |pieces| >= 1 && forall piece :: piece in pieces ==> sep !in piece
    ensures Split(Join(pieces, sep), sep) == pieces
  {
    if |pieces| > 1 {
      var first, tail := pieces[0], pieces[1..];
      assert pieces == [first] + tail;
      assert first in pieces;
      SplitJoinStep(first, tail, sep);
      assert forall piece :: piece in tail ==> piece in pieces;
      SplitJoin(tail, sep);
    } else {
      assert Join(pieces, sep) == pieces[0];
      assert sep !in pieces[0];
    }
  }

  /** Splitting at the first occurrence of a separator: one piece if it is absent, else two. */
  function SplitFirst(s: string, sep: char): (r: seq<string>)
    ensures |r| == 1 || |r| == 2
    ensures |r| == 2 <==> sep in s
    ensures sep !in r[0]
    ensures |r| == 1 ==> r[0] == s
    ensures |r| == 2 ==> s == r[0] + [sep] + r[1]
  {
    if sep in s then
      var i := FirstIndex(s, sep);
      assert s == s[..i] + [sep] + s[i + 1..];
      assert sep !in s[..i];
      [s[..i], s[i + 1..]]
    else [s]
  }

  // ---------------------------------------------------------------------------
  // The description table

  const RhythmNameTab: string :=
    "\n(AFIB\tatrial fibrillation\n(AF\tatrial fibrillation\n(ASYS\tasystole\n(B\tventricular bigeminy\n"
    + "(BI\tfirst degree heart block\n(HGEA\thigh grade ventricular ectopic activity\n"
    + "(N\tnormal sinus rhythm\n(NSR\tnormal sinus rhythm\n(NOD\tnodal (\"AV junctional\") rhythm\n"
    + "(NOISE\tnoise\n(PM\tpacemaker (paced rhythm)\n(SBR\tsinus bradycardia\n"
    + "(SVTA\tsupraventricular tachyarrhythmia\n(VER\tventricular escape rhythm\n"
    + "(VF\tventricular fibrillation\n(VFL\tventricular flutter\n(VT ventricular tachycardia\n"
    + "(AB\tAtrial bigeminy\n(AFIB\t\tAtrial fibrillation\n(AFL\t\tAtrial flutter\n"
    + "(B\t\tVentricular bigeminy\n(BII\t\t2\U{b0} heart block\n(IVR\t\tIdioventricular rhythm\n"
    + "(N\t\tNormal sinus rhythm\n(NOD\t\tNodal (A-V junctional) rhythm\n(P\t\tPaced rhythm\n"
    + "(PREX\t\tPre-excitation (WPW)\n(SBR\t\tSinus bradycardia\n(SVTA\t\tSupraventricular tachyarrhythmia\n"
    + "(T\t\tVentricular trigeminy\n(B3\tThird degree heart block\n(SAB\tSino-atrial block\n"
    + "(VT.r\tVentricular tachycardia (rapid)\n(VT.s\tVentricular tachycardia (slow)\n"
    + "(VT.o\tVentricular tachycardia (other)\n(VF.c\tventricular fibrillation (coarse)\n"
    + "(VF.f\tventricular fibrillation (fine)\n"

  /** The (name, description) pair of one table line, if the line holds a tab. */
  function Entry(line: string): (e: Option<(string, string)>)
    ensures e.Some? <==> '\t' in line
  {
    var cols := SplitFirst(line, '\t');
    if |cols| > 1 then
      Some((Strip(cols[0]), Strip(cols[1])))
    else None
  }

  /** The descriptions after one more table line. */
  function AddEntry(m: map<string, string>, line: string): map<string, string>
  {
    match Entry(line)
    case None => m
    case Some((name, desc)) => m[name := desc]
  }

  /** The descriptions after the table loop has seen the given lines. */
  function ParseLines(lines: seq<string>): map<string, string>
  {
    if lines == [] then map[]
    else AddEntry(ParseLines(lines[..|lines| - 1]), lines[|lines| - 1])
  }

  lemma ParseLinesStep(lines: seq<string>, k: nat)
    requires k < |lines|
    ensures ParseLines(lines[..k + 1]) == AddEntry(ParseLines(lines[..k]), lines[k])
  {
    assert lines[..k + 1][..k] == lines[..k];
  }

  /** The name is the stripped text before the first tab, the description the stripped rest. */
  lemma EntryFields(line: string)
    requires '\t' in line
    ensures var i := FirstIndex(line, '\t');
      Entry(line) == Some((Strip(line[..i]), Strip(line[i + 1..])))
  {
    var cols := SplitFirst(line, '\t');
    var i := FirstIndex(line, '\t');
    assert |cols[0]| == i;
  }

  predicate EntryFor(line: string, name: string)
  {
    Entry(line).Some? && Entry(line).value.0 == name
  }

  /** A name that no line defines is absent from the table. */
  lemma {:induction false} UndefinedName(lines: seq<string>, name: string)
    requires forall j :: 0 <= j < |lines| ==> !EntryFor(lines[j], name)
    ensures name !in ParseLines(lines)
  {
    if lines != [] {
      UndefinedName(lines[..|lines| - 1], name);
    }
  }

  /**
   * A name is described by the LAST line that defines it: a later duplicate
   * overwrites an earlier one.
   */
  lemma {:induction false} LastDefinitionWins(lines: seq<string>, name: string, j: nat)
    requires j < |lines| && EntryFor(lines[j], name)
    requires forall j' :: j < j' < |lines| ==> !EntryFor(lines[j'], name)
    ensures name in ParseLines(lines) && ParseLines(lines)[name] == Entry(lines[j]).value.1
  {
    var init := lines[..|lines| - 1];
    if j < |lines| - 1 {
      LastDefinitionWins(init, name, j);
    }
  }

  /** A line without a tab adds nothing. */
  lemma LineWithoutTab(lines: seq<string>, line: string)
    requires '\t' !in line
    ensures ParseLines(lines + [line]) == ParseLines(lines)
  {
    assert (lines + [line])[..|lines|] == lines;
  }

  /** The table's line 25 separates its columns by spaces only, so it defines nothing. */
  lemma SpaceSeparatedLineIgnored(lines: seq<string>)
    ensures ParseLines(lines + ["(VT ventricular tachycardia"]) == ParseLines(lines)
  {
    LineWithoutTab(lines, "(VT ventricular tachycardia");
  }

  /** A text without whitespace at either end is its own strip. */
  lemma StripTrimmed(s: string)
    requires s == [] || (!IsSpace(s[0]) && !IsSpace(s[|s| - 1]))
    ensures Strip(s) == s
  {
  }

  /** Leading whitespace before a trimmed text is stripped away. */
  lemma {:induction false} StripLeading(pad: string, s: string)
    requires forall k :: 0 <= k < |pad| ==> IsSpace(pad[k])
    requires s != [] && !IsSpace(s[0]) && !IsSpace(s[|s| - 1])
    ensures Strip(pad + s) == s
  {
    if pad == [] {
      assert pad + s == s;
    } else {
      assert (pad + s)[1..] == pad[1..] + s;
      StripLeading(pad[1..], s);
    }
  }

  lemma {:induction false} FirstIndexAfter(name: string, sep: char, rest: string)
    requires sep !in name
    ensures FirstIndex(name + [sep] + rest, sep) == |name|
  {
    if name != [] {
      assert (name + [sep] + rest)[1..] == name[1..] + [sep] + rest;
      FirstIndexAfter(name[1..], sep, rest);
    }
  }

  /**
   * A line "name<TAB><whitespace>description" defines name with that description,
   * whatever the run of whitespace after the first tab.
   */
  lemma TabbedLine(name: string, pad: string, desc: string)
    requires '\t' !in name && (name == [] || (!IsSpace(name[0]) && !IsSpace(name[|name| - 1])))
    requires forall k :: 0 <= k < |pad| ==> IsSpace(pad[k])
    requires desc != [] && !IsSpace(desc[0]) && !IsSpace(desc[|desc| - 1])
    ensures Entry(name + ['\t'] + pad + desc) == Some((name, desc))
  {
    var line := name + ['\t'] + pad + desc;
    assert line == name + ['\t'] + (pad + desc);
    FirstIndexAfter(name, '\t', pad + desc);
    EntryFields(line);
    assert line[..|name|] == name;
    assert line[|name| + 1..] == pad + desc;
    StripTrimmed(name);
    StripLeading(pad, desc);
  }

  /**
   * Two tabbed lines defining the same name (as lines 9 and 27 of the table do for
   * "(AFIB"): the description of the later line is the one kept.
   */
  lemma DuplicateOverwritten(lines: seq<string>, name: string, pad0: string, desc0: string, pad1: string, desc1: string)
    requires '\t' !in name && name != [] && !IsSpace(name[0]) && !IsSpace(name[|name| - 1])
    requires forall k :: 0 <= k < |pad0| ==> IsSpace(pad0[k])
    requires forall k :: 0 <= k < |pad1| ==> IsSpace(pad1[k])
    requires desc0 != [] && !IsSpace(desc0[0]) && !IsSpace(desc0[|desc0| - 1])
    requires desc1 != [] && !IsSpace(desc1[0]) && !IsSpace(desc1[|desc1| - 1])
    requires lines == [name + ['\t'] + pad0 + desc0, name + ['\t'] + pad1 + desc1]
    ensures name in ParseLines(lines) && ParseLines(lines)[name] == desc1
  {
    TabbedLine(name, pad1, desc1);
    LastDefinitionWins(lines, name, 1);
  }

  /** The table loop: strip the table, split it into lines, record each tabbed line. */
  method ParseDescriptions(tab: string) returns (descriptions: map<string, string>)
    ensures descriptions == ParseLines(Split(Strip(tab), '\n'))
  {
    var lines := Split(Strip(tab), '\n');
    descriptions := map[];
    for k := 0 to |lines|
      invariant descriptions == ParseLines(lines[..k])
    {
      ParseLinesStep(lines, k);
      var cols := SplitFirst(lines[k], '\t');
      if |cols| > 1 {
        var name := Strip(cols[0]);
        var desc := Strip(cols[1]);
        descriptions := descriptions[name := desc];
      }
    }
    assert lines[..|lines|] == lines;
  }

  // ---------------------------------------------------------------------------
  // Subtypes of VF and VT

  const CoarseVfThreshold: real := 0.2

  /** "(VF" split by amplitude (strictly above the threshold is coarse), "(VT" by heart rate. */
  function Subtype(rhythm: string, amplitude: real, heartRate: real): (name: string)
    ensures rhythm == "(VF" ==> (name == "(VF.c" <==> amplitude > CoarseVfThreshold)
    ensures rhythm == "(VF" ==> (name == "(VF.f" <==> amplitude <= CoarseVfThreshold)
    ensures rhythm == "(VT" ==> (name == "(VT.o" <==> heartRate == 0.0)
    ensures rhythm == "(VT" ==> (name == "(VT.r" <==> heartRate != 0.0 && heartRate > 180.0)
    ensures rhythm == "(VT" ==> (name == "(VT.s" <==> heartRate != 0.0 && heartRate <= 180.0)
    ensures rhythm != "(VF" && rhythm != "(VT" ==> name == rhythm
  {
    if rhythm == "(VF" then
      if amplitude > CoarseVfThreshold then "(VF.c" else "(VF.f"
    else if rhythm == "(VT" then
      if heartRate == 0.0 then "(VT.o"
      else if heartRate > 180.0 then "(VT.r"
      else "(VT.s"
    else rhythm
  }

  /** Refining an already refined name changes nothing. */
  lemma SubtypeIdempotent(rhythm: string, amplitude: real, heartRate: real)
    ensures var name := Subtype(rhythm, amplitude, heartRate);
      Subtype(name, amplitude, heartRate) == name
  {
    var name := Subtype(rhythm, amplitude, heartRate);
    if rhythm == "(VF" || rhythm == "(VT" {
      assert |name| == 5;
    }
  }

  /** Amplitude exactly at the threshold is fine VF; exactly 180 bpm is slow VT. */
  lemma SubtypeBoundaries()
    ensures Subtype("(VF", 0.2, 0.0) == "(VF.f"
    ensures Subtype("(VT", 0.0, 180.0) == "(VT.s"
    ensures Subtype("(VT", 0.0, 180.5) == "(VT.r"
    ensures Subtype("(VT", 0.0, 0.0) == "(VT.o"
  {
  }

  // ---------------------------------------------------------------------------
  // Counting

  /** The per-segment facts the statistics loop reads from the data set. */
  datatype SegmentInfo = SegmentInfo(recordName: string, rhythm: string, amplitude: real, heartRate: real)

  datatype Statistics = Statistics(counts: map<string, nat>, cases: map<string, set<string>>, total: nat)

  /** The database part of a record name: the text before its first slash, or the whole name. */
  function DbName(recordName: string): (db: string)
    ensures '/' !in db && db <= recordName
    ensures '/' in recordName ==> recordName[|db|] == '/'
    ensures '/' !in recordName ==> db == recordName
  {
    SplitFirst(recordName, '/')[0]
  }

  /**
   * Whether a segment is counted: a given, non-empty list of database names keeps only
   * segments from those databases; no list, or an empty one, keeps every segment.
   */
  predicate Selected(info: SegmentInfo, dbNames: Option<seq<string>>)
  {
    !(dbNames.Some? && |dbNames.value| > 0 && DbName(info.recordName) !in dbNames.value)
  }

  function Name(info: SegmentInfo): string
  {
    Subtype(info.rhythm, info.amplitude, info.heartRate)
  }

  /** Counts one segment of the given rhythm name from the given record. */
  function Add(stats: Statistics, name: string, recordName: string): Statistics
  {
    var n := if name in stats.counts then stats.counts[name] else 0;
    var cs := if name in stats.cases then stats.cases[name] else {};
    Statistics(stats.counts[name := n + 1], stats.cases[name := cs + {recordName}], stats.total + 1)
  }

  /** One iteration of the counting loop. */
  function Count(stats: Statistics, info: SegmentInfo, dbNames: Option<seq<string>>): Statistics
  {
    if !Selected(info, dbNames) then stats
    else Add(stats, Name(info), info.recordName)
  }

  /** The statistics after the counting loop has seen the given segments. */
  function Tally(infos: seq<SegmentInfo>, dbNames: Option<seq<string>>): Statistics
  {
    if infos == [] then Statistics(map[], map[], 0)
    else Count(Tally(infos[..|infos| - 1], dbNames), infos[|infos| - 1], dbNames)
  }

  lemma TallyStep(infos: seq<SegmentInfo>, dbNames: Option<seq<string>>, k: nat)
    requires k < |infos|
    ensures Tally(infos[..k + 1], dbNames) == Count(Tally(infos[..k], dbNames), infos[k], dbNames)
  {
    assert infos[..k + 1][..k] == infos[..k];
  }

  method CollectStatistics(infos: seq<SegmentInfo>, dbNames: Option<seq<string>>) returns (stats: Statistics)
    ensures stats == Tally(infos, dbNames)
  {
    var nSegments := 0;
    var rhythmStatistics: map<string, nat> := map[];
    var caseStatistics: map<string, set<string>> := map[];
    for k := 0 to |infos|
      invariant Statistics(rhythmStatistics, caseStatistics, nSegments) == Tally(infos[..k], dbNames)
    {
      TallyStep(infos, dbNames, k);
      var info := infos[k];
      var dbName := DbName(info.recordName);
      if dbNames.Some? && |dbNames.value| > 0 && dbName !in dbNames.value {
        continue;
      }
      var rhythmName := Subtype(info.rhythm, info.amplitude, info.heartRate);
      rhythmStatistics := rhythmStatistics[rhythmName := (if rhythmName in rhythmStatistics then rhythmStatistics[rhythmName] else 0) + 1];
      caseStatistics := caseStatistics[rhythmName := (if rhythmName in caseStatistics then caseStatistics[rhythmName] else {}) + {info.recordName}];
      nSegments := nSegments + 1;
    }
    assert infos[..|infos|] == infos;
    stats := Statistics(rhythmStatistics, caseStatistics, nSegments);
  }

  // ---------------------------------------------------------------------------
  // What the counters mean

  /** Number of counted segments. */
  function SelectedCount(infos: seq<SegmentInfo>, dbNames: Option<seq<string>>): nat
  {
    if infos == [] then 0
    else SelectedCount(infos[..|infos| - 1], dbNames) + (if Selected(infos[|infos| - 1], dbNames) then 1 else 0)
  }

  /** Number of counted segments whose (refined) rhythm name is `name`. */
  function CountNamed(infos: seq<SegmentInfo>, dbNames: Option<seq<string>>, name: string): nat
  {
    if infos == [] then 0
    else
      var last := infos[|infos| - 1];
      CountNamed(infos[..|infos| - 1], dbNames, name) + (if Selected(last, dbNames) && Name(last) == name then 1 else 0)
  }

  /** Record names of the counted segments whose rhythm name is `name`. */
  function CasesNamed(infos: seq<SegmentInfo>, dbNames: Option<seq<string>>, name: string): set<string>
  {
    if infos == [] then {}
    else
      var last := infos[|infos| - 1];
      CasesNamed(infos[..|infos| - 1], dbNames, name) + (if Selected(last, dbNames) && Name(last) == name then {last.recordName} else {})
  }

  lemma {:induction false} TallyTotal(infos: seq<SegmentInfo>, dbNames: Option<seq<string>>)
    ensures Tally(infos, dbNames).total == SelectedCount(infos, dbNames)
  {
    if infos != [] {
      TallyTotal(infos[..|infos| - 1], dbNames);
    }
  }

  /** A name has a counter and a case set iff some counted segment has that name. */
  lemma {:induction false} TallyNames(infos: seq<SegmentInfo>, dbNames: Option<seq<string>>)
    ensures var st := Tally(infos, dbNames);
      && st.counts.Keys == st.cases.Keys
      && forall name :: name in st.counts <==> CountNamed(infos, dbNames, name) > 0
  {
    if infos != [] {
      TallyNames(infos[..|infos| - 1], dbNames);
    }
  }

  /** A name no counted segment has has no case records either. */
  lemma {:induction false} UncountedHasNoCases(infos: seq<SegmentInfo>, dbNames: Option<seq<string>>, name: string)
    requires CountNamed(infos, dbNames, name) == 0
    ensures CasesNamed(infos, dbNames, name) == {}
  {
    if infos != [] {
      UncountedHasNoCases(infos[..|infos| - 1], dbNames, name);
    }
  }

  /** Each counter is the number of segments with its name, each case set their records. */
  lemma {:induction false} TallyCounters(infos: seq<SegmentInfo>, dbNames: Option<seq<string>>)
    ensures var st := Tally(infos, dbNames);
      forall name :: name in st.counts ==>
        && name in st.cases
        && st.counts[name] == CountNamed(infos, dbNames, name)
        && st.cases[name] == CasesNamed(infos, dbNames, name)
  {
    if infos != [] {
      var init := infos[..|infos| - 1];
      var last := infos[|infos| - 1];
      TallyCounters(init, dbNames);
      TallyNames(init, dbNames);
      var prev := Tally(init, dbNames);
      var st := Tally(infos, dbNames);
      assert st == Count(prev, last, dbNames);
      forall name | name in st.counts
        ensures name in st.cases
        ensures st.counts[name] == CountNamed(infos, dbNames, name) && st.cases[name] == CasesNamed(infos, dbNames, name)
      {
        var hit := Selected(last, dbNames) && Name(last) == name;
        assert CountNamed(infos, dbNames, name) == CountNamed(init, dbNames, name) + (if hit then 1 else 0);
        assert CasesNamed(infos, dbNames, name) == CasesNamed(init, dbNames, name) + (if hit then {last.recordName} else {});
        if name !in prev.counts {
          UncountedHasNoCases(init, dbNames, name);
        }
      }
    }
  }

  /**
   * The counters say what they count: the total is the number of counted segments,
   * a name has a counter iff some counted segment has that name, its counter is the
   * number of such segments and its case set their record names.
   */
  lemma TallyMeaning(infos: seq<SegmentInfo>, dbNames: Option<seq<string>>)
    ensures var st := Tally(infos, dbNames);
      && st.total == SelectedCount(infos, dbNames)
      && st.counts.Keys == st.cases.Keys
      && (forall name :: name in st.counts <==> CountNamed(infos, dbNames, name) > 0)
      && (forall name :: name !in st.counts ==> CasesNamed(infos, dbNames, name) == {})
      && (forall name :: name in st.counts ==>
            st.counts[name] == CountNamed(infos, dbNames, name) && st.cases[name] == CasesNamed(infos, dbNames, name))
  {
    TallyTotal(infos, dbNames);
    TallyNames(infos, dbNames);
    TallyCounters(infos, dbNames);
    var st := Tally(infos, dbNames);
    forall name | name !in st.counts
      ensures CasesNamed(infos, dbNames, name) == {}
    {
      UncountedHasNoCases(infos, dbNames, name);
    }
  }

  /** Segments the database filter rejects change no counter. */
  lemma FilteredOut(infos: seq<SegmentInfo>, info: SegmentInfo, dbNames: Option<seq<string>>)
    requires dbNames.Some? && |dbNames.value| > 0 && DbName(info.recordName) !in dbNames.value
    ensures Tally(infos + [info], dbNames) == Tally(infos, dbNames)
  {
    assert (infos + [info])[..|infos|] == infos;
  }

  /** The sum of the counters of the given names. */
  ghost function SumOver(m: map<string, nat>, names: set<string>): nat
    requires names <= m.Keys
  {
    if names == {} then 0
    else
      var k :| k in names;
      m[k] + SumOver(m, names - {k})
  }

  /** The sum of all counters of a map. */
  ghost function SumValues(m: map<string, nat>): nat
  {
    SumOver(m, m.Keys)
  }

  lemma {:induction false} SumOverRemove(m: map<string, nat>, names: set<string>, k: string)
    requires names <= m.Keys && k in names
    ensures SumOver(m, names) == m[k] + SumOver(m, names - {k})
  {
    var x :| x in names && SumOver(m, names) == m[x] + SumOver(m, names - {x});
    if x != k {
      SumOverRemove(m, names - {x}, k);
      SumOverRemove(m, names - {k}, x);
      assert names - {x} - {k} == names - {k} - {x};
    }
  }

  /** The sum over some names only depends on those names' counters. */
  lemma {:induction false} SumOverSame(m: map<string, nat>, m': map<string, nat>, names: set<string>)
    requires names <= m.Keys && names <= m'.Keys
    requires forall k :: k in names ==> m[k] == m'[k]
    ensures SumOver(m, names) == SumOver(m', names)
  {
    if names != {} {
      var x :| x in names && SumOver(m, names) == m[x] + SumOver(m, names - {x});
      SumOverRemove(m', names, x);
      SumOverSame(m, m', names - {x});
    }
  }

  lemma SumValuesIncrement(m: map<string, nat>, k: string)
    ensures SumValues(m[k := (if k in m then m[k] else 0) + 1]) == SumValues(m) + 1
  {
    var m' := m[k := (if k in m then m[k] else 0) + 1];
    SumOverRemove(m', m'.Keys, k);
    assert m'.Keys - {k} == m.Keys - {k};
    SumOverSame(m, m', m.Keys - {k});
    if k in m {
      SumOverRemove(m, m.Keys, k);
    } else {
      assert m.Keys - {k} == m.Keys;
    }
  }

  /**
   * The bookkeeping the counting loop keeps: the total is the sum of all counters,
   * counters and case sets exist for the same names, and each case set holds between
   * one record and as many records as the name has segments.
   */
  ghost predicate Consistent(st: Statistics)
  {
    && st.total == SumValues(st.counts)
    && st.counts.Keys == st.cases.Keys
    && (forall name :: name in st.cases ==> 1 <= |st.cases[name]| <= st.counts[name])
  }

  lemma AddConsistent(st: Statistics, name: string, recordName: string)
    requires Consistent(st)
    ensures Consistent(Add(st, name, recordName))
  {
    AddTotal(st, name, recordName);
    AddCases(st, name, recordName);
  }

  /** Counting one segment raises the total and the sum of the counters by one each. */
  lemma AddTotal(st: Statistics, name: string, recordName: string)
    requires st.total == SumValues(st.counts)
    ensures Add(st, name, recordName).total == SumValues(Add(st, name, recordName).counts)
  {
    SumValuesIncrement(st.counts, name);
  }

  /** Counting one segment keeps every case set non-empty and within its counter. */
  lemma AddCases(st: Statistics, name: string, recordName: string)
    requires st.counts.Keys == st.cases.Keys
    requires forall n :: n in st.cases ==> 1 <= |st.cases[n]| <= st.counts[n]
    ensures var st' := Add(st, name, recordName);
      && st'.counts.Keys == st'.cases.Keys
      && forall n :: n in st'.cases ==> 1 <= |st'.cases[n]| <= st'.counts[n]
  {
    var cs := if name in st.cases then st.cases[name] else {};
    CardInsert(cs, recordName);
  }

  lemma CardInsert(cs: set<string>, x: string)
    ensures 1 <= |cs + {x}| <= |cs| + 1
  {
    if x in cs {
      assert cs + {x} == cs;
    } else {
      assert |cs + {x}| == |cs| + 1;
    }
  }

  /** Every state of the counting loop is consistent. */
  lemma {:induction false} TallyInvariant(infos: seq<SegmentInfo>, dbNames: Option<seq<string>>)
    ensures Consistent(Tally(infos, dbNames))
  {
    if infos != [] {
      var prev := Tally(infos[..|infos| - 1], dbNames);
      var info := infos[|infos| - 1];
      TallyInvariant(infos[..|infos| - 1], dbNames);
      if Selected(info, dbNames) {
        AddConsistent(prev, Name(info), info.recordName);
      }
    }
  }

  // ---------------------------------------------------------------------------
  // The report

  /** Python's `<` on str: lexicographic on code points, a proper prefix first. */
  predicate Less(a: string, b: string)
  {
    if a == [] then b != []
    else if b == [] then false
    else if a[0] != b[0] then a[0] < b[0]
    else Less(a[1..], b[1..])
  }

  lemma {:induction false} LessIrreflexive(a: string)
    ensures !Less(a, a)
  {
    if a != [] {
      LessIrreflexive(a[1..]);
    }
  }

  lemma {:induction false} LessTransitive(a: string, b: string, c: string)
    requires Less(a, b) && Less(b, c)
    ensures Less(a, c)
  {
    if a != [] && a[0] == b[0] && b[0] == c[0] {
      LessTransitive(a[1..], b[1..], c[1..]);
    }
  }

  lemma {:induction false} LessTotal(a: string, b: string)
    requires a != b
    ensures Less(a, b) || Less(b, a)
  {
    if a != [] && b != [] && a[0] == b[0] {
      assert a == [a[0]] + a[1..] && b == [b[0]] + b[1..];
      LessTotal(a[1..], b[1..]);
    }
  }

  ghost predicate Ascending(names: seq<string>)
  {
    forall i, j :: 0 <= i < j < |names| ==> Less(names[i], names[j])
  }

  /** Inserts a new name into an ascending sequence of names. */
  function Insert(names: seq<string>, x: string): (r: seq<string>)
    requires Ascending(names) && x !in names
    ensures Ascending(r) && |r| == |names| + 1
    ensures forall y :: y in r <==> y in names || y == x
  {
    if names == [] then [x]
    else if Less(x, names[0]) then
      assert Ascending([x] + names) by {
        forall j | 0 < j < |names| + 1 ensures Less(([x] + names)[0], ([x] + names)[j]) {
          if j > 1 { LessTransitive(x, names[0], names[j - 1]); }
        }
      }
      [x] + names
    else
      assert Less(names[0], x) by { LessTotal(x, names[0]); }
      var rest := Insert(names[1..], x);
      assert Ascending([names[0]] + rest) by {
        forall y | y in rest ensures Less(names[0], y) {
          if y != x {
            var m :| 0 <= m < |names[1..]| && names[1..][m] == y;
            assert names[m + 1] == y;
          }
        }
      }
      [names[0]] + rest
  }

  /** Python's sorted() over the names that have a counter. */
  method SortedNames(keys: set<string>) returns (names: seq<string>)
    ensures Ascending(names) && |names| == |keys|
    ensures forall y :: y in names <==> y in keys
  {
    names := [];
    var remaining := keys;
    while remaining != {}
      invariant Ascending(names)
      invariant remaining <= keys
      invariant forall y :: y in names <==> y in keys && y !in remaining
      invariant |names| + |remaining| == |keys|
      decreases |remaining|
    {
      var x :| x in remaining;
      names := Insert(names, x);
      remaining := remaining - {x};
    }
  }

  /** One row of the printed table. */
  datatype Row = Row(name: string, samples: nat, cases: nat, description: string)

  /** The description of a rhythm name from the table, or the name itself when the table lacks it. */
  function Describe(descriptions: map<string, string>, name: string): (d: string)
    ensures name in descriptions ==> d == descriptions[name]
    ensures name !in descriptions ==> d == name
  {
    if name in descriptions then descriptions[name] else name
  }

  /** The row printed for a counted name: its counter, its number of cases, its description. */
  predicate RowFor(stats: Statistics, descriptions: map<string, string>, row: Row)
  {
    && row.name in stats.counts && row.name in stats.cases
    && row.samples == stats.counts[row.name]
    && row.cases == |stats.cases[row.name]|
    && row.description == Describe(descriptions, row.name)
  }

  /** The report loop over the counted names in ascending order, and the total line. */
  method Report(stats: Statistics, descriptions: map<string, string>) returns (rows: seq<Row>, total: nat)
    requires stats.counts.Keys <= stats.cases.Keys
    ensures |rows| == |stats.counts|
    ensures forall i, j :: 0 <= i < j < |rows| ==> Less(rows[i].name, rows[j].name)
    ensures forall i :: 0 <= i < |rows| ==> RowFor(stats, descriptions, rows[i])
    ensures forall name :: name in stats.counts ==> exists i :: 0 <= i < |rows| && rows[i].name == name
    ensures total == stats.total
  {
    var names := SortedNames(stats.counts.Keys);
    rows := [];
    for k := 0 to |names|
      invariant |rows| == k
      invariant forall i :: 0 <= i < k ==> rows[i].name == names[i]
      invariant forall i :: 0 <= i < k ==> RowFor(stats, descriptions, rows[i])
    {
      var name := names[k];
      var desc := Describe(descriptions, name);
      var nSamples := stats.counts[name];
      var nCases := |stats.cases[name]|;
      var row := Row(name, nSamples, nCases, desc);
      assert RowFor(stats, descriptions, row);
      rows := rows + [row];
    }
    forall name | name in stats.counts
      ensures exists i :: 0 <= i < |rows| && rows[i].name == name
    {
      var i :| 0 <= i < |names| && names[i] == name;
      assert rows[i].name == name;
    }
    total := stats.total;
  }

  /** statistics.py main: parse the table, count the segments, report ascending. */
  method RhythmReport(infos: seq<SegmentInfo>, dbNames: Option<seq<string>>) returns (rows: seq<Row>, total: nat)
    ensures total == SelectedCount(infos, dbNames)
    ensures forall i, j :: 0 <= i < j < |rows| ==> Less(rows[i].name, rows[j].name)
    ensures forall name :: CountNamed(infos, dbNames, name) > 0 <==> exists i :: 0 <= i < |rows| && rows[i].name == name
    ensures forall i :: 0 <= i < |rows| ==>
      && rows[i].samples == CountNamed(infos, dbNames, rows[i].name) > 0
      && rows[i].cases == |CasesNamed(infos, dbNames, rows[i].name)|
      && rows[i].description == Describe(ParseLines(Split(Strip(RhythmNameTab), '\n')), rows[i].name)
  {
    var descriptions := ParseDescriptions(RhythmNameTab);
    var stats := CollectStatistics(infos, dbNames);
    TallyMeaning(infos, dbNames);
    rows, total := Report(stats, descriptions);
  }
}
