/**
 * Tracks of a MIDI file and their classification into piano, bass, drums and
 * other (mused/Midi.py, `is_drum` .. `is_other` and the track analysis and
 * filter of `Midi.load_midi`).
 */
module Tracks {
  import opened Sequences
  import opened Text
  import opened Rolls

  /**
   * One track as the MIDI reader delivers it: name, General MIDI program number,
   * drum flag, and its piano roll of note velocities (time x 128 pitches).
   */
  datatype Track = Track(name: string, program: int, isDrum: bool, pianoroll: seq<seq<int>>)

  /** One file as the MIDI reader delivers it, already at the wanted time resolution. */
  datatype Multitrack = Multitrack(tracks: seq<Track>, steps: nat, tempo: real)

  /** A track's roll spans `steps` time steps over the full MIDI pitch range. */
  predicate TrackShape(t: Track, steps: nat)
  {
    |t.pianoroll| == steps && forall i :: 0 <= i < steps ==> |t.pianoroll[i]| == MidiInputs
  }

  /** The reader gives every track of a file the same length. */
  predicate WellFormed(m: Multitrack)
  {
    forall k :: 0 <= k < |m.tracks| ==> TrackShape(m.tracks[k], m.steps)
  }

  const DrumNames: seq<string> := ["drums", "congos", "cymbals", "hits"]
  const PianoNames: seq<string> := ["piano", "accoustic piano", "guitar", "flutevibes"]
  const BassNames: seq<string> := ["bass", "fretless bass"]
  const OtherNames: seq<string> := ["trumpet", "alto", "tenor", "trombone", "he harmonica", "she flute"]

  /** The name as every classifier compares it: `remove_non_ascii(track.name.lower())`. */
  function CleanName(t: Track): string
  {
    RemoveNonAscii(Lower(t.name))
  }

  predicate IsDrum(t: Track)
  {
    AnyContained(CleanName(t), DrumNames) || t.isDrum
  }

  predicate IsPiano(t: Track)
  {
    t.program < 32 || AnyContained(CleanName(t), PianoNames)
  }

  predicate IsBass(t: Track)
  {
    AnyContained(CleanName(t), BassNames) || (31 < t.program < 40)
  }

  predicate IsOther(t: Track)
  {
    AnyContained(CleanName(t), OtherNames) || t.program > 39
  }

  /** One of `names` occurs somewhere in the track's cleaned name. */
  ghost predicate Mentions(t: Track, names: seq<string>)
  {
    exists k, i :: 0 <= k < |names| && OccursAt(CleanName(t), names[k], i)
  }

  /** `is_drum`: a drum name occurs in the cleaned name, or the drum flag is set. */
  lemma IsDrumIff(t: Track)
    ensures IsDrum(t) <==> Mentions(t, DrumNames) || t.isDrum
  {
    AnyContainedOccurs(CleanName(t), DrumNames);
  }

  /** `is_piano`: the program is below 32, or a piano name occurs in the cleaned name. */
  lemma IsPianoIff(t: Track)
    ensures IsPiano(t) <==> t.program < 32 || Mentions(t, PianoNames)
  {
    AnyContainedOccurs(CleanName(t), PianoNames);
  }

  /** `is_bass`: a bass name occurs in the cleaned name, or the program is one of 32 .. 39. */
  lemma IsBassIff(t: Track)
    ensures IsBass(t) <==> Mentions(t, BassNames) || 32 <= t.program <= 39
  {
    AnyContainedOccurs(CleanName(t), BassNames);
  }

  /** `is_other`: another instrument's name occurs in the cleaned name, or the program is 40 or above. */
  lemma IsOtherIff(t: Track)
    ensures IsOther(t) <==> Mentions(t, OtherNames) || t.program >= 40
  {
    AnyContainedOccurs(CleanName(t), OtherNames);
  }

  datatype Category = Piano | Bass | Drums | Other | Unclassified

  /**
   * The first-match chain of the track analysis: piano, then bass, then drums,
   * then other. The program ranges `< 32`, `32..39` and `> 39` cover every
   * integer, so the unclassified outcome (which aborts loading with -1) never
   * happens.
   */
  function Classify(t: Track): (c: Category)
    ensures c != Unclassified
    ensures c == Piano <==> IsPiano(t)
  {
    if IsPiano(t) then Piano
    else if IsBass(t) then Bass
    else if IsDrum(t) then Drums
    else if IsOther(t) then Other
    else Unclassified
  }

  /** The per-file analysis counters. */
  datatype Analysis = Analysis(piano: nat, drums: nat, bass: nat, other: nat)
  {
    function Add(c: Category): Analysis
    {
      match c
      case Piano => this.(piano := piano + 1)
      case Bass => this.(bass := bass + 1)
      case Drums => this.(drums := drums + 1)
      case Other => this.(other := other + 1)
      case Unclassified => this
    }

    function Sum(): nat { piano + drums + bass + other }
  }

  /** The counters after classifying `tracks` in order. */
  function Tally(tracks: seq<Track>): Analysis
  {
    if tracks == [] then Analysis(0, 0, 0, 0)
    else Tally(tracks[..|tracks| - 1]).Add(Classify(tracks[|tracks| - 1]))
  }

  /** Every track lands in exactly one bucket, so the counters add up to the number of tracks. */
  lemma {:induction false} TallyTotal(tracks: seq<Track>)
    ensures Tally(tracks).Sum() == |tracks|
  {
    if tracks != [] {
      TallyTotal(tracks[..|tracks| - 1]);
    }
  }

  /** The analysis loop of `load_midi`: count each track in the first bucket that claims it. */
  method Analyse(tracks: seq<Track>) returns (a: Analysis)
    ensures a == Tally(tracks)
    ensures a.Sum() == |tracks|
  {
    a := Analysis(0, 0, 0, 0);
    var i := 0;
    while i < |tracks|
      invariant 0 <= i <= |tracks|
      invariant a == Tally(tracks[..i])
    {
      var track := tracks[i];
      assert tracks[..i + 1][..i] == tracks[..i];
      if IsPiano(track) {
        a := a.(piano := a.piano + 1);
      } else if IsBass(track) {
        a := a.(bass := a.bass + 1);
      } else if IsDrum(track) {
        a := a.(drums := a.drums + 1);
      } else if IsOther(track) {
        a := a.(other := a.other + 1);
      } else {
        // "Unable to classify track": return -1
        assert false;
      }
      i := i + 1;
    }
    assert tracks[..i] == tracks;
    TallyTotal(tracks);
  }

  /** The keep-filter predicate of `load_midi`. */
  predicate Keep(t: Track)
  {
    !(IsDrum(t) || IsBass(t) || IsOther(t)) && IsPiano(t)
  }

  /**
   * A track is kept exactly when its program is below 32, its drum flag is off
   * and no drum, bass or other name occurs in its cleaned name. The piano names
   * never decide: a program of 32 or more makes the track bass or other.
   */
  lemma KeepIff(t: Track)
    ensures Keep(t) <==>
      (t.program < 32 && !t.isDrum &&
       !Mentions(t, DrumNames) && !Mentions(t, BassNames) && !Mentions(t, OtherNames))
  {
    IsDrumIff(t);
    IsBassIff(t);
    IsOtherIff(t);
  }

  /** `[x for x in tracks if Keep(x)]`. */
  function KeptTracks(tracks: seq<Track>): (r: seq<Track>)
    ensures |r| <= |tracks|
  {
    if tracks == [] then []
    else (if Keep(tracks[0]) then [tracks[0]] else []) + KeptTracks(tracks[1..])
  }

  /** A track survives the filter exactly when it is one of the input tracks and `Keep` holds for it. */
  lemma {:induction false} KeptTracksMembers(tracks: seq<Track>)
    ensures forall x :: x in KeptTracks(tracks) <==> x in tracks && Keep(x)
  {
    if tracks != [] {
      KeptTracksMembers(tracks[1..]);
      assert tracks == [tracks[0]] + tracks[1..];
    }
  }

  /** Every kept track has the shape all the input tracks share. */
  lemma KeptTracksShape(tracks: seq<Track>, steps: nat)
    requires forall k :: 0 <= k < |tracks| ==> TrackShape(tracks[k], steps)
    ensures forall k :: 0 <= k < |KeptTracks(tracks)| ==> TrackShape(KeptTracks(tracks)[k], steps)
  {
    var kept := KeptTracks(tracks);
    KeptTracksMembers(tracks);
    forall k | 0 <= k < |kept| ensures TrackShape(kept[k], steps) {
      assert kept[k] in tracks;
    }
  }

  /** The filter keeps the surviving tracks in their original order. */
  lemma {:induction false} KeptTracksInOrder(tracks: seq<Track>)
    ensures IsSubsequence(KeptTracks(tracks), tracks)
  {
    if tracks != [] {
      KeptTracksInOrder(tracks[1..]);
      var rest := KeptTracks(tracks[1..]);
      if Keep(tracks[0]) {
        assert ([tracks[0]] + rest)[1..] == rest;
      } else {
        assert KeptTracks(tracks) == rest;
      }
    }
  }

  lemma {:induction false} KeptTracksAppend(tracks: seq<Track>, x: Track)
    ensures KeptTracks(tracks + [x]) == KeptTracks(tracks) + (if Keep(x) then [x] else [])
  {
    if tracks != [] {
      assert (tracks + [x])[1..] == tracks[1..] + [x];
      KeptTracksAppend(tracks[1..], x);
    } else {
      assert KeptTracks([x]) == (if Keep(x) then [x] else []) + KeptTracks([]);
    }
  }

  /** A kept track is one the analysis counted as piano, and its program is below 40. */
  lemma KeptIsPiano(t: Track)
    requires Keep(t)
    ensures Classify(t) == Piano && t.program < 40
  {
  }

  /** The kept tracks are among those counted as piano: never more of them. */
  lemma {:induction false} KeptAtMostPiano(tracks: seq<Track>)
    ensures |KeptTracks(tracks)| <= Tally(tracks).piano
  {
    if tracks != [] {
      var init := tracks[..|tracks| - 1];
      var last := tracks[|tracks| - 1];
      assert init + [last] == tracks;
      KeptTracksAppend(init, last);
      KeptAtMostPiano(init);
    }
  }

  /**
   * The subset can be proper: a drum track with a piano-range program (such as
   * program 0) is counted as piano but dropped by the filter.
   */
  lemma DrumWithPianoProgramDropped(t: Track)
    requires t.isDrum && t.program < 32
    ensures Classify(t) == Piano && !Keep(t) && KeptTracks([t]) == []
  {
    assert KeptTracks([t]) == [] + KeptTracks([]);
  }

  /** `binarize()`: the track sounds pitch `p` at time `t` (its velocity there is above 0). */
  predicate Sounds(track: Track, t: int, p: int)
  {
    0 <= t < |track.pianoroll| && 0 <= p < |track.pianoroll[t]| && track.pianoroll[t][p] > 0
  }

  /** Binarise (velocity above 0) and blend with 'any': the tracks' rolls overlaid. */
  function Blend(tracks: seq<Track>, steps: nat): (r: Roll)
    requires forall k :: 0 <= k < |tracks| ==> TrackShape(tracks[k], steps)
    ensures |r| == steps && HasWidth(r, MidiInputs)
  {
    if tracks == [] then seq(steps, _ => ZeroRow(MidiInputs))
    else
      var n := |tracks| - 1;
      var prev := Blend(tracks[..n], steps);
      var last := tracks[n];
      seq(steps, t requires 0 <= t < steps =>
        seq(MidiInputs, p requires 0 <= p < MidiInputs => prev[t][p] || Sounds(last, t, p)))
  }

  /** A cell of the blended roll sounds exactly when it sounds in at least one of the tracks. */
  lemma {:induction false} BlendSounds(tracks: seq<Track>, steps: nat, t: nat, p: nat)
    requires forall k :: 0 <= k < |tracks| ==> TrackShape(tracks[k], steps)
    requires t < steps && p < MidiInputs
    ensures Blend(tracks, steps)[t][p] <==> exists k :: 0 <= k < |tracks| && Sounds(tracks[k], t, p)
  {
    if tracks != [] {
      var n := |tracks| - 1;
      var init := tracks[..n];
      BlendSounds(init, steps, t, p);
      if Blend(init, steps)[t][p] {
        var k :| 0 <= k < n && Sounds(init[k], t, p);
        assert Sounds(tracks[k], t, p);
      }
      if exists k :: 0 <= k < |tracks| && Sounds(tracks[k], t, p) {
        var k :| 0 <= k < |tracks| && Sounds(tracks[k], t, p);
        if k < n {
          assert Sounds(init[k], t, p);
        }
      }
    }
  }
}
