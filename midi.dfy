/**
 * The `Midi` class of mused/Midi.py: it loads MIDI files into one piano roll,
 * cuts the pitch axis to a window around middle C, turns the roll into
 * (lookback window, next row) training pairs, augments it by pitch shifts and
 * widens it back to 128 pitches for export.
 */
module Mused {
  import opened Wrappers
  import opened Sequences
  import opened Rolls
  import opened Tracks

  /** `refined`: a file's blended roll, cut to the pitch window when `cut` is set. */
  function Refine(r: Roll, cut: bool, notesAbove: nat): (q: Roll)
    requires HasWidth(r, MidiInputs)
    requires cut ==> notesAbove <= MiddleC
    ensures |q| == |r| && HasWidth(q, if cut then 2 * notesAbove else MidiInputs)
  {
    if cut then CutWindow(r, notesAbove) else r
  }

  /** The rows one file contributes to the loaded roll; none when no track survives the filter. */
  function FileRows(m: Multitrack, cut: bool, notesAbove: nat): (rows: Roll)
    requires WellFormed(m)
    requires cut ==> notesAbove <= MiddleC
    ensures HasWidth(rows, if cut then 2 * notesAbove else MidiInputs)
    ensures |rows| == if KeptTracks(m.tracks) == [] then 0 else m.steps
  {
    var kept := KeptTracks(m.tracks);
    if kept == [] then []
    else
      KeptTracksShape(m.tracks, m.steps);
      Refine(Blend(kept, m.steps), cut, notesAbove)
  }

  predicate AllWellFormed(files: seq<Multitrack>)
  {
    forall k :: 0 <= k < |files| ==> WellFormed(files[k])
  }

  /** The rows of each file, in input order. */
  function PerFile(files: seq<Multitrack>, cut: bool, notesAbove: nat): (rs: seq<Roll>)
    requires AllWellFormed(files)
    requires cut ==> notesAbove <= MiddleC
    ensures |rs| == |files|
    ensures forall j :: 0 <= j < |rs| ==> HasWidth(rs[j], if cut then 2 * notesAbove else MidiInputs)
  {
    if files == [] then []
    else
      var n := |files| - 1;
      PerFile(files[..n], cut, notesAbove) + [FileRows(files[n], cut, notesAbove)]
  }

  /** Entry `j` is file `j`'s rows. */
  lemma {:induction false} PerFileAt(files: seq<Multitrack>, j: nat, cut: bool, notesAbove: nat)
    requires AllWellFormed(files) && j < |files|
    requires cut ==> notesAbove <= MiddleC
    ensures PerFile(files, cut, notesAbove)[j] == FileRows(files[j], cut, notesAbove)
  {
    var n := |files| - 1;
    if j < n {
      PerFileAt(files[..n], j, cut, notesAbove);
    }
  }

  /** The roll `load_midi` builds: every file's rows, in input order. */
  function Merged(files: seq<Multitrack>, cut: bool, notesAbove: nat): Roll
    requires AllWellFormed(files)
    requires cut ==> notesAbove <= MiddleC
  {
    Concat(PerFile(files, cut, notesAbove))
  }

  lemma {:induction false} PerFilePrefix(files: seq<Multitrack>, k: nat, cut: bool, notesAbove: nat)
    requires AllWellFormed(files) && k <= |files|
    requires cut ==> notesAbove <= MiddleC
    ensures PerFile(files, cut, notesAbove)[..k] == PerFile(files[..k], cut, notesAbove)
  {
    var n := |files| - 1;
    if k == |files| {
      assert files[..k] == files;
    } else {
      var init := files[..n];
      assert init[..k] == files[..k];
      PerFilePrefix(init, k, cut, notesAbove);
      PrefixOfSnoc(PerFile(init, cut, notesAbove), FileRows(files[n], cut, notesAbove), k);
    }
  }

  /** Loading one more file appends its rows. */
  lemma MergedSnoc(files: seq<Multitrack>, i: nat, cut: bool, notesAbove: nat)
    requires AllWellFormed(files) && i < |files|
    requires cut ==> notesAbove <= MiddleC
    ensures Merged(files[..i + 1], cut, notesAbove) ==
            Merged(files[..i], cut, notesAbove) + FileRows(files[i], cut, notesAbove)
  {
    var prefix := files[..i + 1];
    assert prefix[..i] == files[..i] && prefix[i] == files[i];
    ConcatSnoc(PerFile(files[..i], cut, notesAbove), FileRows(files[i], cut, notesAbove));
  }

  /** The time steps of the files that keep at least one track. */
  function KeptSteps(files: seq<Multitrack>): nat
  {
    if files == [] then 0
    else
      var m := files[|files| - 1];
      KeptSteps(files[..|files| - 1]) + (if KeptTracks(m.tracks) == [] then 0 else m.steps)
  }

  /** The merged roll is as long as the kept files together. */
  lemma {:induction false} MergedLength(files: seq<Multitrack>, cut: bool, notesAbove: nat)
    requires AllWellFormed(files)
    requires cut ==> notesAbove <= MiddleC
    ensures |Merged(files, cut, notesAbove)| == KeptSteps(files)
  {
    if files != [] {
      var n := |files| - 1;
      assert files[..n + 1] == files;
      MergedSnoc(files, n, cut, notesAbove);
      MergedLength(files[..n], cut, notesAbove);
    }
  }

  /**
   * The merged roll is as long as the kept files together and is as wide as the
   * pitch window (`2 * notesAbove` when cut, 128 otherwise).
   */
  lemma MergedShape(files: seq<Multitrack>, cut: bool, notesAbove: nat)
    requires AllWellFormed(files)
    requires cut ==> notesAbove <= MiddleC
    ensures |Merged(files, cut, notesAbove)| == KeptSteps(files)
    ensures HasWidth(Merged(files, cut, notesAbove), if cut then 2 * notesAbove else MidiInputs)
  {
    MergedLength(files, cut, notesAbove);
    ConcatWidth(PerFile(files, cut, notesAbove), if cut then 2 * notesAbove else MidiInputs);
  }

  /**
   * File `k`'s rows (`PerFile(files)[k]`, that is `FileRows(files[k])` by `PerFileAt`) occupy
   * `[offset, offset + len)` of the merged roll, where `offset` is the number of
   * rows the files before it contribute (`KeptSteps(files[..k])`, by `MergedLength`).
   */
  lemma MergedBlock(files: seq<Multitrack>, cut: bool, notesAbove: nat, k: nat, t: nat)
    requires AllWellFormed(files)
    requires cut ==> notesAbove <= MiddleC
    requires k < |files| && t < |PerFile(files, cut, notesAbove)[k]|
    ensures |Merged(files[..k], cut, notesAbove)| + t < |Merged(files, cut, notesAbove)|
    ensures Merged(files, cut, notesAbove)[|Merged(files[..k], cut, notesAbove)| + t] ==
            PerFile(files, cut, notesAbove)[k][t]
  {
    var rs := PerFile(files, cut, notesAbove);
    assert Merged(files[..k], cut, notesAbove) == Concat(rs[..k]) by {
      PerFilePrefix(files, k, cut, notesAbove);
    }
    ConcatBlock(rs, k, t);
  }

  /** A file whose tracks are all dropped by the filter adds no rows. */
  lemma SkippedFileAddsNothing(files: seq<Multitrack>, m: Multitrack, cut: bool, notesAbove: nat)
    requires AllWellFormed(files) && WellFormed(m)
    requires cut ==> notesAbove <= MiddleC
    requires KeptTracks(m.tracks) == []
    ensures Merged(files + [m], cut, notesAbove) == Merged(files, cut, notesAbove)
  {
    var all := files + [m];
    assert all[..|files|] == files && all[..|files| + 1] == all;
    MergedSnoc(all, |files|, cut, notesAbove);
  }

  /** The slice assignment `a[index:index + len(block), :] = block`. */
  method WriteRows(a: array<Row>, index: nat, block: Roll)
    requires index + |block| <= a.Length
    modifies a
    ensures a[..index + |block|] == old(a[..index]) + block
    ensures a[index + |block|..] == old(a[index + |block|..])
  {
    forall t | 0 <= t < |block| {
      a[index + t] := block[t];
    }
    assert a[..index + |block|] == old(a[..index]) + block;
  }

  /**
   * The body of `load_midi`'s loop for one file: `None` when no track survives
   * the filter (the file is skipped), otherwise its blended and cut roll.
   */
  method ProcessFile(m: Multitrack, cut: bool, notesAbove: nat) returns (refined: Option<Roll>)
    requires WellFormed(m)
    requires cut ==> notesAbove <= MiddleC
    ensures refined.None? <==> KeptTracks(m.tracks) == []
    ensures FileRows(m, cut, notesAbove) == if refined.Some? then refined.value else []
  {
    var analysis := Analyse(m.tracks);  // only reported
    var kept := KeptTracks(m.tracks);
    if kept == [] {
      return None;
    }
    KeptTracksShape(m.tracks, m.steps);
    var blended := Blend(kept, m.steps);
    if cut {
      var loss := NoteLoss(blended, MiddleC - notesAbove, MiddleC + notesAbove);  // only reported
      refined := Some(CutWindow(blended, notesAbove));
    } else {
      refined := Some(blended);
    }
  }

  /**
   * The loop of `load_midi` over the files: each file sets the tempo, and each
   * file that keeps a track appends its roll to `rolls` and its length to the
   * running `rollLength`.
   */
  method LoadRolls(files: seq<Multitrack>, cut: bool, notesAbove: nat, tempo: Option<real>)
    returns (rolls: seq<Roll>, rollLength: nat, lastTempo: Option<real>)
    requires AllWellFormed(files)
    requires cut ==> notesAbove <= MiddleC
    ensures Concat(rolls) == Merged(files, cut, notesAbove)
    ensures rollLength == |Concat(rolls)|
    ensures lastTempo == if files == [] then tempo else Some(files[|files| - 1].tempo)
  {
    rolls, rollLength, lastTempo := [], 0, tempo;
    var i := 0;
    while i < |files|
      invariant 0 <= i <= |files|
      invariant lastTempo == if i == 0 then tempo else Some(files[i - 1].tempo)
      invariant Concat(rolls) == Merged(files[..i], cut, notesAbove)
      invariant rollLength == |Concat(rolls)|
    {
      var m := files[i];
      lastTempo := Some(m.tempo);
      var refined := ProcessFile(m, cut, notesAbove);
      MergedSnoc(files, i, cut, notesAbove);
      if refined.Some? {
        ConcatSnoc(rolls, refined.value);
        rolls := rolls + [refined.value];
        rollLength := rollLength + |refined.value|;
      }
      i := i + 1;
    }
    assert files[..i] == files;
  }

  /**
   * The merge at the end of `load_midi`: a zero buffer of `length` rows is
   * filled roll after roll, each written at the running row index.
   */
  method Stack(rolls: seq<Roll>, length: nat, width: nat) returns (stacked: Roll)
    requires length == |Concat(rolls)|
    ensures stacked == Concat(rolls)
  {
    var extended := new Row[length](_ => ZeroRow(width));
    var index := 0;
    var j := 0;
    while j < |rolls|
      invariant 0 <= j <= |rolls|
      invariant index == |Concat(rolls[..j])| <= length
      invariant extended[..index] == Concat(rolls[..j])
    {
      var r := rolls[j];
      assert rolls[..j + 1] == rolls[..j] + [r];
      ConcatSnoc(rolls[..j], r);
      ConcatPrefixLength(rolls, j + 1);
      WriteRows(extended, index, r);
      index := index + |r|;
      j := j + 1;
    }
    assert rolls[..j] == rolls;
    stacked := extended[..];
  }

  /**
   * Round `i` of `augment`'s loop: after the roll and the first `i - 1` pairs,
   * write the roll shifted up by `i * vStep`, then shifted down by `i * vStep`.
   */
  method WriteShiftedPair(a: array<Row>, index: nat, r: Roll, i: nat, vStep: int) returns (next: nat)
    requires 1 <= i && index + |r| + |r| <= a.Length
    requires a[..index] == r + ShiftedBlocks(r, i - 1, vStep)
    modifies a
    ensures next == index + |r| + |r|
    ensures a[..next] == r + ShiftedBlocks(r, i, vStep)
  {
    ghost var before := a[..index];
    var up := ShiftRoll(r, i * vStep);
    WriteRows(a, index, up);
    next := index + |up|;
    var down := ShiftRoll(r, -(i * vStep));
    WriteRows(a, next, down);
    next := next + |down|;
    AugmentRegroup(r, i, vStep, before, up, down);
  }

  /**
   * The body of `augment` for a present roll: a zero buffer of
   * `|r| * (2 * (nAugments / 2) + 1)` rows gets the roll itself, then for each
   * `i` its copies shifted by `+i * vStep` and by `-i * vStep`.
   */
  method AugmentRows(r: Roll, nAugments: nat, vStep: int, width: nat) returns (augmented: Roll)
    requires HasWidth(r, width)
    ensures augmented == Augmented(r, nAugments, vStep)
  {
    var half := nAugments / 2;
    var newRoll := new Row[|r| * (half * 2 + 1)](_ => ZeroRow(width));
    assert newRoll.Length == |r + ShiftedBlocks(r, half, vStep)| by {
      assert |Augmented(r, nAugments, vStep)| == |r| * (2 * half + 1);
    }
    WriteRows(newRoll, 0, r);
    var index := |r|;
    var i := 1;
    while i <= half
      invariant 1 <= i <= half + 1
      invariant |r| <= index <= newRoll.Length
      invariant newRoll[..index] == r + ShiftedBlocks(r, i - 1, vStep)
    {
      ShiftedBlocksRoom(r, i, half, vStep);
      index := WriteShiftedPair(newRoll, index, r, i, vStep);
      i := i + 1;
    }
    assert newRoll[..] == newRoll[..index];
    augmented := newRoll[..];
  }

  // ---------------------------------------------------------------------
  // `reformat_roll` as written, and the roll it was meant to export
  // ---------------------------------------------------------------------

  /** Every row of `r` repeated across `w` columns: numpy broadcasting a one-column roll. */
  function Broadcast(r: Roll, w: nat): (b: Roll)
    requires HasWidth(r, 1)
    ensures |b| == |r| && HasWidth(b, w)
    ensures forall t, p :: 0 <= t < |r| && 0 <= p < w ==> b[t][p] == r[t][0]
  {
    seq(|r|, t requires 0 <= t < |r| => seq(w, _ => r[t][0]))
  }

  /**
   * `reformat_roll` as written, on a roll `w` pitches wide: the assignment to
   * the columns `64 - notes_above .. 64 + notes_above - 1` succeeds when the
   * roll is exactly that wide, or one column wide (numpy broadcasts it); for
   * any other width numpy raises, shown as `None`.
   */
  function ReformatAsWritten(r: Roll, w: nat, notesAbove: nat): (e: Option<Roll>)
    requires HasWidth(r, w) && notesAbove <= MiddleC
    ensures e.Some? <==> w == 2 * notesAbove || w == 1
    ensures e.Some? ==> |e.value| == |r| && HasWidth(e.value, MidiInputs)
    ensures w == 2 * notesAbove ==> e == Some(Widen(r, MiddleC - notesAbove, MidiInputs))
  {
    var lo := MiddleC - notesAbove;
    if w == 2 * notesAbove then Some(Widen(r, lo, MidiInputs))
    else if w == 1 then Some(Widen(Broadcast(r, 2 * notesAbove), lo, MidiInputs))
    else None
  }

  /**
   * After `load_np` of a roll of odd width `w` between 3 and 127, `notes_above`
   * is `w // 2`: the window is one column narrower than the roll, and
   * `reformat_roll` (so `save`) raises.
   */
  lemma OddWidthReformatRaises(r: Roll, w: nat)
    requires HasWidth(r, w) && w % 2 == 1 && 3 <= w < MidiInputs
    ensures w / 2 <= MiddleC && 2 * (w / 2) == w - 1
    ensures ReformatAsWritten(r, w, w / 2) == None
  {
  }

  /**
   * After `load_np` of a one-column roll, `notes_above` is 0 and the window is
   * empty: numpy broadcasts the column into no columns at all, so the code
   * does not raise but exports a roll with every note dropped.
   */
  lemma OneColumnReformatSilent(r: Roll)
    requires HasWidth(r, 1)
    ensures ReformatAsWritten(r, 1, 0).Some?
    ensures |ReformatAsWritten(r, 1, 0).value| == |r|
    ensures forall t, p :: 0 <= t < |r| && 0 <= p < MidiInputs ==> !ReformatAsWritten(r, 1, 0).value[t][p]
  {
  }

  /**
   * The export the code evidently means: a roll of any width `w` up to 128,
   * placed from column `64 - w // 2`, fits in 128 pitches, and cutting those
   * `w` columns back out gives the roll unchanged. For even `w` this is the
   * code's own window.
   */
  lemma ReformatRoundTrip(r: Roll, w: nat)
    requires HasWidth(r, w) && w <= MidiInputs
    ensures MiddleC - w / 2 + w <= MidiInputs
    ensures Cut(Widen(r, MiddleC - w / 2, MidiInputs), MiddleC - w / 2, MiddleC - w / 2 + w) == r
    ensures w % 2 == 0 ==> ReformatAsWritten(r, w, w / 2) == Some(Widen(r, MiddleC - w / 2, MidiInputs))
  {
    WidenThenCut(r, w, MiddleC - w / 2, MidiInputs);
  }

  class Midi {
    var beatResolution: int   // time steps per quarter note; used only by the reader
    var numPitches: nat
    var notesAbove: nat
    var cut: bool
    var tempo: Option<real>
    var roll: Option<Roll>

    /** `notes_above` is always half of `num_pitches`, rounded down. */
    ghost predicate Valid()
      reads this
    {
      notesAbove == numPitches / 2
    }

    constructor (numPitches: nat, beatResolution: int := 24, cut: bool := true)
      ensures Valid()
      ensures this.numPitches == numPitches && notesAbove == numPitches / 2
      ensures this.beatResolution == beatResolution && this.cut == cut
      ensures tempo == None && roll == None
    {
      this.beatResolution := beatResolution;
      this.numPitches := numPitches;
      this.notesAbove := numPitches / 2;
      this.cut := cut;
      this.tempo := None;
      this.roll := None;
    }

    /**
     * `load_midi`: classify and filter each file's tracks, blend the kept ones,
     * cut to the pitch window, and concatenate the files' rolls along time.
     */
    method LoadMidi(files: seq<Multitrack>)
      requires Valid()
      requires cut ==> numPitches % 2 == 0 && numPitches <= MidiInputs
      requires !cut ==> numPitches == MidiInputs
      requires AllWellFormed(files)
      modifies this
      ensures Valid()
      ensures numPitches == old(numPitches) && notesAbove == old(notesAbove)
      ensures cut == old(cut) && beatResolution == old(beatResolution)
      ensures tempo == if files == [] then old(tempo) else Some(files[|files| - 1].tempo)
      ensures roll == Some(Merged(files, cut, notesAbove))
      ensures |roll.value| == KeptSteps(files) && HasWidth(roll.value, numPitches)
    {
      var rolls, rollLength, lastTempo := LoadRolls(files, cut, notesAbove, tempo);
      tempo := lastTempo;
      MergedShape(files, cut, notesAbove);
      var extended := Stack(rolls, rollLength, numPitches);
      roll := Some(extended);
    }

    /**
     * `load_np`: adopt a roll `width` pitches wide. A full-width roll clears `cut`;
     * a narrower one becomes the pitch window; a wider one is only reported, yet
     * the roll and tempo are stored all the same.
     */
    method LoadNp(r: Roll, width: nat, tempo: real := 120.0)
      requires Valid() && HasWidth(r, width)
      modifies this
      ensures Valid()
      ensures roll == Some(r) && this.tempo == Some(tempo) && beatResolution == old(beatResolution)
      ensures width > MidiInputs ==>
                numPitches == old(numPitches) && notesAbove == old(notesAbove) && cut == old(cut)
      ensures width == MidiInputs ==>
                !cut && numPitches == old(numPitches) && notesAbove == old(notesAbove)
      ensures width < MidiInputs ==> numPitches == width && notesAbove == width / 2 && cut
    {
      if width > MidiInputs {
        // "ROLL ERROR: Too wide to fit into midi!"
      } else if width == MidiInputs {
        cut := false;
      } else {
        numPitches := width;
        notesAbove := numPitches / 2;
        cut := true;
      }
      roll := Some(r);
      this.tempo := Some(tempo);
    }

    /**
     * `vectorise`: one pair per window start `i` in `range(0, L - lookback, step)`;
     * pair `k` is the `lookback` rows from `k * step` and the row right after them.
     */
    method Vectorise(lookback: nat, step: nat := 1) returns (x: seq<Roll>, y: seq<Row>)
      requires roll.Some? && HasWidth(roll.value, numPitches)
      requires step >= 1
      ensures |x| == |y| == PairCount(|roll.value|, lookback, step)
      ensures forall k :: 0 <= k < |x| ==> IsPair(roll.value, k * step, lookback, x[k], y[k])
    {
      var r := roll.value;
      var phrases: seq<Roll> := [];
      var nextNotes: seq<Row> := [];
      var i := 0;
      while i < |r| - lookback
        invariant |phrases| == |nextNotes|
        invariant i == |phrases| * step
        invariant |phrases| > 0 ==> i - step < |r| - lookback
        invariant forall k :: 0 <= k < |phrases| ==> IsPair(r, k * step, lookback, phrases[k], nextNotes[k])
        decreases |r| - lookback - i
      {
        ghost var n := |phrases|;
        assert (n + 1) * step == n * step + step;
        assert IsPair(r, n * step, lookback, r[i..i + lookback], r[i + lookback]);
        phrases := phrases + [r[i..i + lookback]];
        nextNotes := nextNotes + [r[i + lookback]];
        i := i + step;
      }
      StartsCount(|r|, lookback, step, |phrases|, i);

      var width := numPitches;
      var xs := new Roll[|phrases|](_ => ZeroRoll(lookback, width));
      var ys := new Row[|phrases|](_ => ZeroRow(width));
      var k := 0;
      while k < |phrases|
        modifies xs, ys
        invariant 0 <= k <= |phrases|
        invariant xs[..k] == phrases[..k] && ys[..k] == nextNotes[..k]
      {
        xs[k] := phrases[k];
        ys[k] := nextNotes[k];
        k := k + 1;
      }
      assert phrases[..k] == phrases && nextNotes[..k] == nextNotes;
      x := xs[..];
      y := ys[..];
    }

    /**
     * `reformat_roll`: put the cut roll, `num_pitches` wide, into an all-false
     * 128-pitch roll from column `64 - notes_above`. For an even `num_pitches`
     * these are the code's columns `64 - notes_above .. 64 + notes_above - 1`.
     * An odd one is placed at the same start with its own width: the code
     * raises for widths 3 to 127 (`OddWidthReformatRaises`) and, for width 1,
     * exports no notes at all (`OneColumnReformatSilent`).
     */
    method ReformatRoll() returns (widened: Roll)
      requires Valid() && roll.Some? && numPitches <= MidiInputs && HasWidth(roll.value, numPitches)
      ensures MiddleC - notesAbove + numPitches <= MidiInputs
      ensures widened == Widen(roll.value, MiddleC - notesAbove, MidiInputs)
    {
      var r := roll.value;
      var lo := MiddleC - notesAbove;
      var hi := lo + numPitches;
      var e := new Row[|r|](_ => ZeroRow(MidiInputs));
      forall t | 0 <= t < |r| {
        e[t] := e[t][..lo] + r[t] + e[t][hi..];
      }
      widened := e[..];
      var expected := Widen(r, lo, MidiInputs);
      forall t | 0 <= t < |r|
        ensures widened[t] == expected[t]
      {
        assert |widened[t]| == MidiInputs;
      }
    }

    /** The roll `save` hands to the MIDI writer: widened when cut, the roll itself otherwise. */
    method Save() returns (out: Roll)
      requires roll.Some?
      requires cut ==> Valid() && numPitches <= MidiInputs && HasWidth(roll.value, numPitches)
      ensures |out| == |roll.value|
      ensures out == if cut then Widen(roll.value, MiddleC - notesAbove, MidiInputs) else roll.value
    {
      if cut {
        out := ReformatRoll();
      } else {
        out := roll.value;
      }
    }

    /**
     * `augment`: stack the roll with its copies shifted up and down by
     * `i * vStep` pitches (wrapping around), for `i = 1 .. nAugments / 2`.
     * Without a roll it only reports the problem.
     */
    method Augment(nAugments: nat, vStep: int := 5)
      requires Valid()
      requires roll.Some? ==> HasWidth(roll.value, numPitches)
      modifies this
      ensures Valid()
      ensures numPitches == old(numPitches) && notesAbove == old(notesAbove) && cut == old(cut)
      ensures tempo == old(tempo) && beatResolution == old(beatResolution)
      ensures old(roll).None? ==> roll == old(roll)
      ensures old(roll).Some? ==> roll == Some(Augmented(old(roll).value, nAugments, vStep))
    {
      if roll.None? {
        // "No roll to augment!"
        return;
      }
      var augmented := AugmentRows(roll.value, nAugments, vStep, numPitches);
      roll := Some(augmented);
    }
  }
}
