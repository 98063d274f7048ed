# Mused piano-roll pipeline in Dafny

This project models the data-preparation core of Mused, `mused/Midi.py`. It turns MIDI files into one boolean piano roll (time steps × pitches) for training a next-note model. The model covers these steps:

- **Track classification**: `remove_non_ascii` cleans a track's name. The `is_piano`, `is_bass`, `is_drum` and `is_other` tests then put the track in the first bucket that claims it, in that order. The keep-filter retains only pure piano tracks.
- **Loading** (`Midi.load_midi`): for each file:
  1. record the tempo;
  2. count the tracks per bucket;
  3. drop the non-piano tracks, skipping the file when none is left;
  4. binarise the kept tracks (velocity > 0) and blend them with "any";
  5. optionally cut the pitch axis to the window `[64 - notes_above, 64 + notes_above)` and compute the note loss.

  The per-file rolls are then written, one after another, into a zero buffer `num_pitches` wide.
- **`load_np`**: adopts a roll from outside and adjusts `num_pitches`, `notes_above` and `cut` to its width.
- **`vectorise`**: produces (lookback window, next row) training pairs.
- **`reformat_roll` and `save`**: widen a cut roll back to 128 pitches for export.
- **`augment`**: stacks the roll with its copies circularly shifted by `±i·v_step` pitches.

Modules:
- `common.dfy`: `Option`, and subsequences.
- `text.dfy`: `remove_non_ascii` and Python's substring test.
- `tracks.dfy`: tracks, classification, the keep-filter and the blend.
- `rolls.dfy`: rolls, cut and widen, `np.roll`, the augmented layout, and the window arithmetic of `vectorise`.
- `midi.dfy`: the `Midi` class and the loops of `load_midi` and `augment`.

The class keeps the Python object's fields and updates them in place. Each method is proved against a specification function: `Merged`, `Augmented`, `Widen`, `PairCount`/`IsPair`. The lemmas in `rolls.dfy`, `tracks.dfy` and `midi.dfy` prove what the code promises about those functions. The buffers of `load_midi` and `augment`, which numpy fills by slice assignment, become Dafny arrays of rows written by one slice-assignment method (`WriteRows`). `ReformatRoll` sets all rows of its array in one `forall` statement, and `Vectorise` fills its arrays one entry at a time.

Preconditions the source leaves implicit are stated as `requires`:
- The rolls of a file's tracks share one length, as the MIDI reader delivers them.
- For `load_midi` with `cut`, `num_pitches` is even and at most 128. With an odd `num_pitches`, the code's window is `num_pitches - 1` wide and would not fit the `num_pitches`-wide merge buffer.
- For `load_midi` without `cut`, `num_pitches` is 128.
- `vectorise` and `augment` require a roll `num_pitches` wide, the width of the buffers they allocate.

For `reformat_roll` and `save`, the model uses the corrected export described under "Findings". It differs from the code for odd widths below 128. For widths 3 to 127 the code raises. For width 1 it silently exports a roll with no notes, where the model keeps the column at pitch 64.

Two behaviours of the code are modelled as written:
- `load_np` of a 128-wide roll clears `cut` but leaves `num_pitches` and `notes_above` unchanged.
- `load_np` of a roll wider than 128 only reports the problem, and still stores the roll and the tempo.

## Model

| member | source | states |
|---|---|---|
| Text.RemoveNonAscii | mused/Midi.py:223-224 | every character of the result is a lower-case letter or a space |
| Text.RemoveNonAsciiIsSubsequence | mused/Midi.py:223-224 | the result is a subsequence of the lower-cased input (order kept, nothing invented) |
| Text.RemoveNonAsciiCounts | mused/Midi.py:224 | each letter or space of the lower-cased input survives exactly as often as it occurs; every other character is dropped |
| Text.RemoveNonAsciiIdempotent | mused/Midi.py:223-224 | cleaning a cleaned name changes nothing |
| Text.KeepLettersAndSpaces | mused/Midi.py:224 | the filter's output holds only letters and spaces |
| Text.Lower | mused/Midi.py:224 | `str.lower` keeps the length, lowers each capital, and leaves no capital in the result |
| Text.ContainsIff | mused/Midi.py:18 | the substring search `Contains` (`n in t`) answers yes exactly when `n` occurs at some index of `t` |
| Text.AnyContainedIff | mused/Midi.py:17-19 | the loop `AnyContained` over a name list returns true exactly when the search finds some listed name |
| Text.AnyContainedOccurs | mused/Midi.py:17-19 | the loop `AnyContained` returns true exactly when some listed name occurs at some index of the cleaned name |
| Tracks.IsDrumIff | mused/Midi.py:15-20 | `is_drum` holds exactly when a drum name occurs in the cleaned name or the drum flag is set |
| Tracks.IsPianoIff | mused/Midi.py:23-30 | `is_piano` holds exactly when the program is below 32 or a piano name occurs in the cleaned name |
| Tracks.IsBassIff | mused/Midi.py:33-38 | `is_bass` holds exactly when a bass name occurs in the cleaned name or the program is one of 32 to 39 |
| Tracks.IsOtherIff | mused/Midi.py:41-46 | `is_other` holds exactly when another instrument's name occurs in the cleaned name or the program is 40 or above |
| Tracks.KeepIff | mused/Midi.py:102-103 | the keep-filter keeps a track exactly when its program is below 32, its drum flag is off and no drum, bass or other name occurs in its name; the piano names never decide |
| Tracks.KeptTracks | mused/Midi.py:102-103 | the filtered list is never longer than the file's track list |
| Tracks.Classify | mused/Midi.py:85-98 | the first-match chain never leaves a track unclassified, and a track counts as piano exactly when `is_piano` holds |
| Tracks.Analyse | mused/Midi.py:84-98 | the analysis loop computes the per-bucket tally, its four counters sum to the number of tracks, and the -1 return is unreachable |
| Tracks.TallyTotal | mused/Midi.py:84-98 | every track lands in exactly one bucket: the counters add up to the number of tracks |
| Tracks.KeptTracksMembers | mused/Midi.py:102-103 | a track is kept exactly when it is one of the file's tracks and is piano but not drum, bass or other |
| Tracks.KeptTracksInOrder | mused/Midi.py:102-103 | the kept tracks are a subsequence of the file's tracks, in their original order |
| Tracks.KeptTracksAppend | mused/Midi.py:102-103 | filtering a list with one more track appends that track exactly when it is kept |
| Tracks.KeptTracksShape | mused/Midi.py:102-109 | the kept tracks have the shape all the file's tracks share |
| Tracks.KeptIsPiano | mused/Midi.py:86-87 | a kept track was counted as piano, and its program is below 40 |
| Tracks.KeptAtMostPiano | mused/Midi.py:84-103 | never more tracks are kept than were counted as piano |
| Tracks.DrumWithPianoProgramDropped | mused/Midi.py:102-103 | a drum track with a program below 32 is counted as piano yet dropped by the filter |
| Tracks.Blend | mused/Midi.py:109 | the blended roll spans the file's time steps and all 128 pitches |
| Tracks.BlendSounds | mused/Midi.py:109 | a blended cell is on exactly when some kept track has a velocity above 0 there |
| Rolls.ZeroRoll | mused/Midi.py:165 | `np.zeros` gives `n` rows of the given width, every one all false |
| Rolls.Cut | mused/Midi.py:114 | `roll[:, lo:hi]` keeps every row and exactly the columns `lo .. hi-1` |
| Rolls.CutWindow | mused/Midi.py:114 | the cut keeps pitch `64 - notes_above + p` at column `p`, for a width of `2 * notes_above` |
| Rolls.TotalSplitsAtWindow | mused/Midi.py:116 | the notes of a roll are those inside the window plus those outside it |
| Rolls.NoteLoss | mused/Midi.py:116 | the note loss of a cut is never negative and equals the number of sounding cells outside the window |
| Rolls.Widen | mused/Midi.py:175-176 | the widened roll is 128 wide, equal to the cut roll inside the window and false outside it |
| Rolls.WidenThenCut | mused/Midi.py:173-178 | cutting a widened roll back to its window gives the roll again |
| Rolls.CutThenWiden | mused/Midi.py:173-178 | a cut followed by `reformat_roll` leaves the window's data in place and silences every other pitch |
| Rolls.RollRowRotation | mused/Midi.py:215 | `np.roll` by `s` (pitch `p` from pitch `(p - s) mod P`) is the cut-and-swap that moves the first `(-s) mod P` pitches to the end |
| Rolls.RollRowOnes | mused/Midi.py:215-217 | a circular shift neither creates nor drops notes |
| Rolls.RollRow | mused/Midi.py:215 | `np.roll` of a row keeps the row's width |
| Rolls.ShiftRoll | mused/Midi.py:215 | shifting a roll keeps its number of rows and each row's width |
| Rolls.ConcatBlock | mused/Midi.py:130-133 | roll `k` of a stack starts right after the rows of the rolls before it |
| Rolls.ConcatSnoc | mused/Midi.py:131-133 | stacking one more roll appends its rows |
| Rolls.ConcatWidth | mused/Midi.py:127-133 | a stack of rolls of one width has that width |
| Rolls.ConcatPrefixLength | mused/Midi.py:130-133 | the rolls before any point of the stack never exceed it |
| Rolls.ShiftedBlocks | mused/Midi.py:214-218 | `m` pairs of shifted copies are `2·m·L` rows |
| Rolls.ShiftedBlocksWidth | mused/Midi.py:210-218 | the shifted copies of a roll have the roll's width |
| Rolls.ShiftedBlocksRoom | mused/Midi.py:210-218 | while pairs remain, the buffer has room for the next pair after those already written |
| Rolls.AugmentRegroup | mused/Midi.py:214-218 | writing pair `i` after the roll and the first `i - 1` pairs gives the roll and the first `i` pairs |
| Rolls.ShiftedBlocksAt | mused/Midi.py:214-218 | inside the shifted copies, pair `i` follows the earlier pairs: the up-shift first, then the down-shift |
| Rolls.Augmented | mused/Midi.py:210-219 | the augmented roll has `L·(2·(n/2)+1)` rows, the length of the buffer `augment` allocates |
| Rolls.AugmentedWidth | mused/Midi.py:210 | the augmented roll keeps the pitch width |
| Rolls.AugmentedKeepsOriginal | mused/Midi.py:211 | the first `L` rows of the augmented roll are the original roll |
| Rolls.AugmentedUpBlock | mused/Midi.py:214-216 | row `t` of block `2i-1` is row `t` of the roll rolled by `+i·v` |
| Rolls.AugmentedDownBlock | mused/Midi.py:216-218 | row `t` of block `2i` is row `t` of the roll rolled by `-i·v` |
| Rolls.AugmentedRowOnes | mused/Midi.py:214-218 | every shifted row sounds as many notes as the original row it copies |
| Rolls.PairCountZero | mused/Midi.py:158 | `range(0, L - lookback, step)` is empty exactly when `L <= lookback` |
| Rolls.PairInBounds | mused/Midi.py:158-160 | every window start `k·step` of the range leaves room for the `lookback` rows and the next row |
| Rolls.CeilingCount | mused/Midi.py:158 | starts `0, step, …` below `d` number the ceiling of `d / step` |
| Rolls.StartsCount | mused/Midi.py:158 | the `range(0, L - lookback, step)` loop runs exactly `ceil((L - lookback) / step)` times (none when `L <= lookback`) |
| Mused.Refine | mused/Midi.py:112-120 | a cut file roll keeps its length and is `2 * notes_above` wide; an uncut one stays 128 wide |
| Mused.FileRows | mused/Midi.py:102-121 | a file contributes no rows when no track survives the filter, otherwise as many rows as it has time steps, at the window width |
| Mused.PerFile | mused/Midi.py:77-124 | there is one roll per file, each at the window width |
| Mused.PerFileAt | mused/Midi.py:77-124 | entry `j` is file `j`'s rows |
| Mused.PerFilePrefix | mused/Midi.py:77-124 | the rolls of the first `k` files do not depend on the files after them |
| Mused.MergedSnoc | mused/Midi.py:123-124 | loading one more file appends its rows to the merged roll |
| Mused.MergedLength | mused/Midi.py:123-127 | the merged roll is as long as the files that keep a track, together |
| Mused.MergedShape | mused/Midi.py:124-133 | the merged roll `Merged` has the summed length and is `num_pitches` wide |
| Mused.MergedBlock | mused/Midi.py:130-133 | file `k`'s rows sit in the merged roll at the offset given by the rows of the files before it |
| Mused.SkippedFileAddsNothing | mused/Midi.py:105-107 | a file whose tracks are all dropped adds nothing to the merged roll |
| Mused.WriteRows | mused/Midi.py:132 | the slice assignment replaces rows `index ..` by the block and leaves the other rows alone |
| Mused.ProcessFile | mused/Midi.py:84-121 | a file is skipped exactly when no track survives the filter, otherwise it yields the file's rows |
| Mused.LoadRolls | mused/Midi.py:77-124 | the file loop collects rolls that stack to the merged roll, with `roll_length` their total length and the tempo of the last file |
| Mused.Stack | mused/Midi.py:127-133 | filling the zero buffer roll after roll at the running index yields the rolls stacked in order |
| Mused.WriteShiftedPair | mused/Midi.py:215-218 | one round of the loop extends the filled prefix from `i - 1` shifted pairs to `i` |
| Mused.AugmentRows | mused/Midi.py:210-219 | the filled buffer is the roll followed by its up/down shifted copies for `i = 1 .. n/2` |
| Mused.Midi.constructor | mused/Midi.py:51-57 | sets the resolution, `num_pitches`, `notes_above = num_pitches // 2` and `cut`, with no tempo and no roll |
| Mused.Midi.LoadMidi | mused/Midi.py:68-135 | the roll becomes the merged roll, of the summed length and `num_pitches` wide; the tempo is that of the last file; the other fields stay |
| Mused.Midi.LoadNp | mused/Midi.py:137-152 | stores the roll and tempo in every case: too wide keeps the other fields, 128 clears `cut`, narrower sets `num_pitches`, `notes_above` and `cut` |
| Mused.Midi.Vectorise | mused/Midi.py:154-171 | returns `ceil((L - lookback) / step)` pairs; pair `k` is the `lookback` rows from `k·step` and the row right after them |
| Mused.Broadcast | mused/Midi.py:176 | numpy's broadcast of a one-column roll repeats each row's single value across the target columns |
| Mused.ReformatAsWritten | mused/Midi.py:173-178 | the slice assignment succeeds exactly when the roll is `2 * notes_above` wide or one column wide, and then gives a 128-pitch roll with the roll at its window |
| Mused.OddWidthReformatRaises | mused/Midi.py:147-149 | after `load_np` of an odd width from 3 to 127, the window is one column narrower than the roll and `reformat_roll` raises |
| Mused.OneColumnReformatSilent | mused/Midi.py:147-176 | after `load_np` of a one-column roll, the window is empty: `reformat_roll` does not raise but exports a roll with no notes |
| Mused.ReformatRoundTrip | mused/Midi.py:173-178 | a roll of any width up to 128 placed from column `64 - w // 2` fits, and cutting it back out gives the roll; for even widths this is the code's result |
| Mused.Midi.ReformatRoll | mused/Midi.py:173-178 | returns the `num_pitches`-wide roll placed from column `64 - notes_above` in an all-false 128-pitch roll, which fits |
| Mused.Midi.Save | mused/Midi.py:180-185 | exports the widened roll when cut and the roll itself otherwise |
| Mused.Midi.Augment | mused/Midi.py:204-220 | without a roll nothing changes; otherwise the roll becomes its augmentation and the other fields stay |

## Left out

- `Gru.py`, the Keras model wrapper, is not part of this model.
- Reading MIDI files (`pypianoroll.read`), `set_resolution`, `BinaryTrack`, `Multitrack`, `clip` and `write` are outside the model. A file arrives as a `Multitrack` value already at the chosen resolution, and `save` returns the roll it would hand to the writer.
- The tempo of a file is the mean of a float tempo curve. The model takes that mean as the file's input `tempo: real`.
- The loss percentage (a float division) and all printing and plotting (`print`, `display`) are not modelled. The note loss is computed, and its value is proved.
- `preview_data` and the `__main__` block only chain other operations with fixed arguments and I/O.
- Text.RemoveNonAscii: only ASCII letters count as letters. Python's `isalpha` and `lower` also keep and lower non-ASCII letters; the model drops them.
- Mused.Midi.LoadNp: the reshape of a 3-D array with a leading axis of 1 is not modelled. The roll arrives 2-D, with its width given separately.
- Mused.Midi.ReformatRoll: numpy returns a float array of 0.0 and 1.0; the model returns the same cells as booleans.
- Tracks.Blend: the model requires the tracks of a file to share one length. Tracks of different lengths are not modelled.
- Mused.Midi.Vectorise: requires `step >= 1`. Python raises an error for a zero step. A negative step is not modelled. `lookback` is a natural number: a negative lookback makes numpy raise when it allocates `x`, and that error is not modelled.
- Mused.Midi.ReformatRoll: requires a roll `num_pitches` wide, at most 128. A roll wider than 128 adopted by `load_np` while `cut` is set makes numpy raise in the code; that error is not modelled. For a one-column roll the model keeps the column at pitch 64; the code exports it with no notes (see "Findings").
- Mused.Midi.Save: with `cut` set, requires the same as `ReformatRoll`, so the error for a roll wider than 128 is not modelled either.
- Mused.Midi.Augment: `nAugments` is a natural number. A negative count gives a non-empty roll a negative buffer length, for which numpy raises; that error is not modelled.
- Mused.Midi.LoadNp: the roll is stored as a value. The code keeps a reference to the caller's array, so later changes to that array show through; `save` copies the roll before export. Aliasing is not modelled.
- Mused.Midi.LoadMidi: the -1 return for an unclassifiable track is proved unreachable, so it is absent from the method.

## Findings

| source | as written | input that shows it | evidently intended | confidence | as-written member | corrected member |
|---|---|---|---|---|---|---|
| mused/Midi.py:147-176 | `load_np` of a roll narrower than 128 sets `notes_above = w // 2` and `cut`; `save` then assigns the `w`-wide roll to the `2 * (w // 2)` columns from `64 - notes_above` | any roll of odd width `w` from 3 to 127, for instance 5 columns: the window has 4 columns and numpy raises | the roll is exported at its window whatever its width: columns `64 - w // 2 .. 64 - w // 2 + w - 1`, which fit for every `w` up to 128 and give the roll back when cut out | medium; not executed | Mused.OddWidthReformatRaises | Mused.Midi.ReformatRoll |
| mused/Midi.py:147-176 | `load_np` of a one-column roll sets `notes_above = 0`; `reformat_roll` then assigns the column to the empty slice `64:64`, which numpy accepts by broadcasting | any one-column roll with a note, for instance `[[True]]`: no error is raised, and the exported roll has no notes | the column is exported at pitch 64, as for any other width from column `64 - w // 2` | low; not executed | Mused.OneColumnReformatSilent | Mused.Midi.ReformatRoll |
