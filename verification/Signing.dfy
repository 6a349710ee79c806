/** Peaks written band by band, each by how many frames it is after the one before it or by its own
    number where that is too many, and the samples they are looked for in, held in a ring. */
module Signing {
  import opened Octets
  import opened Wrappers
  import opened Keeping

  const FRAME_DELTA_ESCAPE: nat := 255
  const FIRST_BAND_TAG: nat := 0x6003_0040
  const U16_VALUES: nat := 0x1_0000

  datatype Peak = Peak(frame: nat, magnitude: nat, bin: nat)

  /** A peak each of whose parts fits where it is written. */
  predicate Fits(peak: Peak) {
    peak.frame < U32_VALUES && peak.magnitude < U16_VALUES && peak.bin < U16_VALUES
  }

  /** Peaks in the order they were found, the first no earlier than a frame. */
  ghost predicate InTurn(peaks: seq<Peak>, last: nat)
    decreases |peaks|
  {
    peaks == [] || (last <= peaks[0].frame && Fits(peaks[0]) && InTurn(peaks[1..], peaks[0].frame))
  }

  function Tail(peak: Peak): (tail: Bytes)
    ensures |tail| == 4
  {
    LittleEndian(2, peak.magnitude) + LittleEndian(2, peak.bin)
  }

  function PeakWritten(peak: Peak, last: nat): (written: Bytes)
    requires last <= peak.frame
  {
    if peak.frame - last >= FRAME_DELTA_ESCAPE then [255] + LittleEndian(U32_BYTES, peak.frame) + [0] + Tail(peak)
    else [(peak.frame - last) as byte] + Tail(peak)
  }

  function PeaksWritten(peaks: seq<Peak>, last: nat): (written: Bytes)
    requires InTurn(peaks, last)
    decreases |peaks|
  {
    if peaks == [] then [] else PeakWritten(peaks[0], last) + PeaksWritten(peaks[1..], peaks[0].frame)
  }

  method WritePeaks(peaks: seq<Peak>) returns (written: Bytes)
    requires InTurn(peaks, 0)
    ensures written == PeaksWritten(peaks, 0)
  {
    written := [];
    var last, left := 0, peaks;
    while left != []
      invariant InTurn(left, last) && written + PeaksWritten(left, last) == PeaksWritten(peaks, 0)
      decreases |left|
    {
      var peak := left[0];
      ghost var rest := PeaksWritten(left[1..], peak.frame);
      ghost var one := PeakWritten(peak, last);
      if peak.frame - last >= FRAME_DELTA_ESCAPE {
        written := written + ([255] + LittleEndian(U32_BYTES, peak.frame) + [0] + Tail(peak));
      } else {
        written := written + ([(peak.frame - last) as byte] + Tail(peak));
      }
      Regrouped(written[..|written| - |one|], one, rest);
      last, left := peak.frame, left[1..];
    }
    assert written + [] == written;
  }

  lemma Regrouped(before: Bytes, one: Bytes, rest: Bytes)
    ensures before + one + rest == before + (one + rest)
  {
  }

  // ---------------------------------------------------------------- reading

  /** One peak and what is after it, counted on from a frame. */
  function ReadPeak(bytes: Bytes, last: nat): (read: Option<(Peak, Bytes)>)
    ensures read.Some? ==> |read.value.1| < |bytes|
  {
    if bytes == [] then None
    else
      var escaped := bytes[0] as nat == FRAME_DELTA_ESCAPE;
      if escaped && |bytes| < 6 then None
      else
        var from := if escaped then FromLittleEndian(bytes[1..5]) else last;
        var left := if escaped then bytes[5..] else bytes;
        if |left| < 5 then None
        else
          Some((Peak(from + left[0] as nat, FromLittleEndian(left[1..3]), FromLittleEndian(left[3..5])), left[5..]))
  }

  function ReadPeaks(bytes: Bytes, last: nat): (read: Option<seq<Peak>>)
    decreases |bytes|
  {
    if bytes == [] then Some([])
    else
      var one := ReadPeak(bytes, last);
      if one.None? then None
      else
        var rest := ReadPeaks(one.value.1, one.value.0.frame);
        if rest.None? then None else Some([one.value.0] + rest.value)
  }

  lemma PeakReadsBack(peak: Peak, last: nat, rest: Bytes)
    requires last <= peak.frame && Fits(peak)
    ensures ReadPeak(PeakWritten(peak, last) + rest, last) == Some((peak, rest))
  {
    TwoBytes();
    NumberReadsBack(2, peak.magnitude);
    NumberReadsBack(2, peak.bin);
    if peak.frame - last >= FRAME_DELTA_ESCAPE {
      FarReadsBack(peak, last, rest);
    } else {
      NearReadsBack(peak, last, rest);
    }
  }

  lemma FarReadsBack(peak: Peak, last: nat, rest: Bytes)
    requires last <= peak.frame && Fits(peak) && peak.frame - last >= FRAME_DELTA_ESCAPE
    requires FromLittleEndian(LittleEndian(2, peak.magnitude)) == peak.magnitude
    requires FromLittleEndian(LittleEndian(2, peak.bin)) == peak.bin
    ensures ReadPeak(PeakWritten(peak, last) + rest, last) == Some((peak, rest))
  {
    var written := PeakWritten(peak, last) + rest;
    FourBytes();
    NumberReadsBack(U32_BYTES, peak.frame);
    assert written[1..5] == LittleEndian(U32_BYTES, peak.frame);
    TailFollows(peak, [255] + LittleEndian(U32_BYTES, peak.frame), 0, rest, written);
  }

  lemma NearReadsBack(peak: Peak, last: nat, rest: Bytes)
    requires last <= peak.frame && Fits(peak) && peak.frame - last < FRAME_DELTA_ESCAPE
    requires FromLittleEndian(LittleEndian(2, peak.magnitude)) == peak.magnitude
    requires FromLittleEndian(LittleEndian(2, peak.bin)) == peak.bin
    ensures ReadPeak(PeakWritten(peak, last) + rest, last) == Some((peak, rest))
  {
    var written := PeakWritten(peak, last) + rest;
    TailFollows(peak, [], (peak.frame - last) as byte, rest, written);
    assert written[0..] == written;
  }

  lemma TailFollows(peak: Peak, before: Bytes, delta: byte, rest: Bytes, written: Bytes)
    requires written == before + [delta] + Tail(peak) + rest
    ensures var left := written[|before|..];
      && |left| == 5 + |rest| && left[0] == delta && left[1..3] == LittleEndian(2, peak.magnitude)
      && left[3..5] == LittleEndian(2, peak.bin) && left[5..] == rest
  {
    assert written[|before|..] == [delta] + LittleEndian(2, peak.magnitude) + LittleEndian(2, peak.bin) + rest;
  }

  lemma TwoBytes()
    ensures Values(2) == U16_VALUES
  {
    assert Values(1) == 256;
  }

  /** Peaks found in turn read back as they were found, however far apart they are. */
  lemma {:induction false} PeaksReadBack(peaks: seq<Peak>, last: nat)
    requires InTurn(peaks, last)
    ensures ReadPeaks(PeaksWritten(peaks, last), last) == Some(peaks)
    decreases |peaks|
  {
    if peaks != [] {
      PeakReadsBack(peaks[0], last, PeaksWritten(peaks[1..], peaks[0].frame));
      PeaksReadBack(peaks[1..], peaks[0].frame);
      assert [peaks[0]] + peaks[1..] == peaks;
    }
  }

  // ---------------------------------------------------------------- bands

  function Padding(length: nat): (padding: nat)
    ensures padding < 4 && (length + padding) % 4 == 0
  {
    (4 - length % 4) % 4
  }

  function BandWritten(band: nat, peaks: seq<Peak>): (written: Bytes)
    requires InTurn(peaks, 0)
  {
    var inside := PeaksWritten(peaks, 0);
    LittleEndian(4, FIRST_BAND_TAG + band) + LittleEndian(4, |inside|) + inside + seq(Padding(|inside|), _ => 0)
  }

  ghost predicate Writable(bands: seq<seq<Peak>>, band: nat) {
    && FIRST_BAND_TAG + band + |bands| < U32_VALUES
    && forall k | 0 <= k < |bands| :: InTurn(bands[k], 0) && |PeaksWritten(bands[k], 0)| < U32_VALUES
  }

  /** Every band that has peaks, after the one before it. */
  function Contents(bands: seq<seq<Peak>>, band: nat): (contents: Bytes)
    requires Writable(bands, band)
    decreases |bands|
  {
    if bands == [] then []
    else (if bands[0] == [] then [] else BandWritten(band, bands[0])) + Contents(bands[1..], band + 1)
  }

  function Found(bands: seq<seq<Peak>>, band: nat): (found: seq<(nat, seq<Peak>)>)
    decreases |bands|
  {
    if bands == [] then []
    else (if bands[0] == [] then [] else [(FIRST_BAND_TAG + band, bands[0])]) + Found(bands[1..], band + 1)
  }

  /** A band's tag, what is inside it and what is after it. */
  function BandOf(bytes: Bytes): (band: Option<(nat, Bytes, Bytes)>)
    ensures band.Some? ==> |band.value.2| < |bytes|
  {
    if |bytes| < 8 then None
    else
      var tag, length := FromLittleEndian(bytes[..4]), FromLittleEndian(bytes[4..8]);
      var past := 8 + length + Padding(length);
      if past > |bytes| then None else Some((tag, bytes[8..8 + length], bytes[past..]))
  }

  function ReadBands(bytes: Bytes): (bands: Option<seq<(nat, seq<Peak>)>>)
    decreases |bytes|
  {
    if bytes == [] then Some([])
    else
      var band := BandOf(bytes);
      if band.None? then None
      else
        var peaks, rest := ReadPeaks(band.value.1, 0), ReadBands(band.value.2);
        if peaks.None? || rest.None? then None else Some([(band.value.0, peaks.value)] + rest.value)
  }

  /** Every band that has peaks reads back with its own tag, and the padding after it is passed
      over. */
  lemma {:induction false} BandsReadBack(bands: seq<seq<Peak>>, band: nat)
    requires Writable(bands, band)
    ensures ReadBands(Contents(bands, band)) == Some(Found(bands, band))
    decreases |bands|
  {
    if bands != [] {
      BandsReadBack(bands[1..], band + 1);
      NextBand(bands, band);
      NextFound(bands, band);
      if bands[0] != [] {
        BandReadsBack(band, bands[0], Contents(bands[1..], band + 1), Found(bands[1..], band + 1));
      }
    }
  }

  lemma BandReadsBack(band: nat, peaks: seq<Peak>, rest: Bytes, found: seq<(nat, seq<Peak>)>)
    requires InTurn(peaks, 0) && |PeaksWritten(peaks, 0)| < U32_VALUES && FIRST_BAND_TAG + band < U32_VALUES
    requires ReadBands(rest) == Some(found)
    ensures ReadBands(BandWritten(band, peaks) + rest) == Some([(FIRST_BAND_TAG + band, peaks)] + found)
  {
    HeadReadsBack(FIRST_BAND_TAG + band, PeaksWritten(peaks, 0), rest, BandWritten(band, peaks) + rest);
    PeaksReadBack(peaks, 0);
  }

  lemma HeadReadsBack(tag: nat, inside: Bytes, rest: Bytes, bytes: Bytes)
    requires tag < U32_VALUES && |inside| < U32_VALUES
    requires bytes
      == LittleEndian(4, tag) + LittleEndian(4, |inside|) + inside + seq(Padding(|inside|), _ => 0) + rest
    ensures BandOf(bytes) == Some((tag, inside, rest))
  {
    BandLaidOut(LittleEndian(4, tag), LittleEndian(4, |inside|), inside, seq(Padding(|inside|), _ => 0), rest, bytes);
    FourBytes();
    NumberReadsBack(4, tag);
    NumberReadsBack(4, |inside|);
  }

  lemma BandLaidOut(tag: Bytes, length: Bytes, inside: Bytes, padding: Bytes, rest: Bytes, bytes: Bytes)
    requires |tag| == 4 && |length| == 4 && bytes == tag + length + inside + padding + rest
    ensures bytes[..4] == tag && bytes[4..8] == length && bytes[8..8 + |inside|] == inside
    ensures bytes[8 + |inside| + |padding|..] == rest
  {
  }

  /** The contents of a signature, band after band. */
  method WriteBands(bands: seq<seq<Peak>>) returns (contents: Bytes)
    requires Writable(bands, 0)
    ensures contents == Contents(bands, 0) && ReadBands(contents) == Some(Found(bands, 0))
  {
    contents := [];
    for band := 0 to |bands|
      invariant Writable(bands[band..], band)
      invariant contents + Contents(bands[band..], band) == Contents(bands, 0)
    {
      NextBand(bands[band..], band);
      assert bands[band..][1..] == bands[band + 1..];
      if bands[band] != [] {
        var one := WriteBand(band, bands[band]);
        Regrouped(contents, one, Contents(bands[band + 1..], band + 1));
        contents := contents + one;
      }
    }
    assert contents + [] == contents;
    BandsReadBack(bands, 0);
  }

  lemma NextBand(bands: seq<seq<Peak>>, band: nat)
    requires bands != [] && Writable(bands, band)
    ensures Writable(bands[1..], band + 1) && InTurn(bands[0], 0)
    ensures bands[0] == [] ==> Contents(bands, band) == Contents(bands[1..], band + 1)
    ensures bands[0] != [] ==> Contents(bands, band) == BandWritten(band, bands[0]) + Contents(bands[1..], band + 1)
  {
    assert [] + Contents(bands[1..], band + 1) == Contents(bands[1..], band + 1);
  }

  lemma NextFound(bands: seq<seq<Peak>>, band: nat)
    requires bands != []
    ensures bands[0] == [] ==> Found(bands, band) == Found(bands[1..], band + 1)
    ensures bands[0] != [] ==>
      Found(bands, band) == [(FIRST_BAND_TAG + band, bands[0])] + Found(bands[1..], band + 1)
  {
    assert [] + Found(bands[1..], band + 1) == Found(bands[1..], band + 1);
  }

  method WriteBand(band: nat, peaks: seq<Peak>) returns (written: Bytes)
    requires InTurn(peaks, 0)
    ensures written == BandWritten(band, peaks)
  {
    var inside := WritePeaks(peaks);
    written := LittleEndian(4, FIRST_BAND_TAG + band) + LittleEndian(4, |inside|) + inside
      + seq(Padding(|inside|), _ => 0);
  }

  // ---------------------------------------------------------------- the ring

  /** A ring unrolled from its oldest sample to its newest. */
  function Unrolled(held: seq<real>, heldAt: nat): (unrolled: seq<real>)
    requires heldAt <= |held|
  {
    held[heldAt..] + held[..heldAt]
  }

  class Ring {
    var held: seq<real>
    var heldAt: nat
    ghost var stream: seq<real>

    /** What the ring holds is the end of all it was given, after as many silent samples. */
    ghost predicate Valid()
      reads this
    {
      && heldAt < |held|
      && Unrolled(held, heldAt) == (seq(|held|, _ => 0.0) + stream)[|stream|..]
    }

    constructor (window: nat)
      requires window > 0
      ensures Valid() && |held| == window && stream == []
    {
      held, heldAt, stream := seq(window, _ => 0.0), 0, [];
    }

    method Push(sample: real)
      requires Valid()
      modifies this
      ensures Valid() && |held| == old(|held|) && stream == old(stream) + [sample]
    {
      RoundOnce(heldAt + 1, |held|);
      var next := (heldAt + 1) % |held|;
      PushedRound(held, heldAt, sample, next);
      OneOn(seq(|held|, _ => 0.0), stream, sample);
      held, heldAt := held[heldAt := sample], next;
      stream := stream + [sample];
    }

    /** The sample so far on from the oldest is where the ring comes round to it. */
    lemma OffsetIsRound(offset: nat)
      requires Valid() && offset < |held|
      ensures held[(heldAt + offset) % |held|] == (seq(|held|, _ => 0.0) + stream)[|stream| + offset]
    {
      RoundOnce(heldAt + offset, |held|);
      assert Unrolled(held, heldAt)[offset] == held[(heldAt + offset) % |held|];
    }
  }

  lemma RoundOnce(n: nat, each: nat)
    requires n < 2 * each
    ensures n % each == if n < each then n else n - each
  {
  }

  lemma PushedRound(held: seq<real>, heldAt: nat, sample: real, next: nat)
    requires heldAt < |held| && next == if heldAt + 1 < |held| then heldAt + 1 else 0
    ensures Unrolled(held[heldAt := sample], next) == Unrolled(held, heldAt)[1..] + [sample]
  {
  }

  lemma OneOn(silent: seq<real>, stream: seq<real>, sample: real)
    ensures |silent| > 0 ==>
      (silent + (stream + [sample]))[|stream| + 1..] == (silent + stream)[|stream|..][1..] + [sample]
  {
  }
}
