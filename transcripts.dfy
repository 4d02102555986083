/**
 * The sample transcript generator (generateSampleTranscriptions): it cuts [0, duration) into
 * consecutive 5-second segments, numbered from 1, the last one ending at the duration, and cycles
 * through the sample lines of the original language. The selected line is written into the
 * segment's `korean` field only for a Korean original; for any other original language that field
 * holds a placeholder naming the segment's time span.
 */
module Transcripts {

  /** Length of a segment in seconds. */
  const SegmentSeconds: nat := 5

  /** One transcript segment: its number, time span and the text of its `korean` field. */
  datatype Segment = Segment(id: nat, startTime: nat, endTime: nat, korean: string)

  /** The decimal digit for 0 <= d < 10. */
  function Digit(d: nat): char
    requires d < 10
  {
    "0123456789"[d]
  }

  /** The decimal form of a whole number, as template-string interpolation writes it. */
  function NatToString(n: nat): (r: string)
    ensures |r| > 0
    ensures forall k :: 0 <= k < |r| ==> '0' <= r[k] <= '9'
    decreases n
  {
    if n < 10 then [Digit(n)] else NatToString(n / 10) + [Digit(n % 10)]
  }

  /** The `korean` text of a segment of a non-Korean original: "번역된 텍스트 (<start>s-<end>s)". */
  function Placeholder(startTime: nat, endTime: nat): string {
    "번역된 텍스트 (" + NatToString(startTime) + "s-" + NatToString(endTime) + "s)"
  }

  /** The `korean` field: the selected sample line for a Korean original, else the placeholder. */
  function KoreanField(originalIsKorean: bool, line: string, startTime: nat, endTime: nat): string {
    if originalIsKorean then line else Placeholder(startTime, endTime)
  }

  function Min(a: nat, b: nat): nat {
    if a <= b then a else b
  }

  /** Number of segments for a video: one per started 5-second slot. */
  function SegmentCount(duration: nat): (n: nat)
    ensures SegmentSeconds * n >= duration
    ensures n == 0 || SegmentSeconds * (n - 1) < duration
  {
    (duration + SegmentSeconds - 1) / SegmentSeconds
  }

  /** The segment at position `i`. */
  function SegmentAt(i: nat, duration: nat, texts: seq<string>, originalIsKorean: bool): Segment
    requires |texts| > 0
  {
    var start := SegmentSeconds * i;
    var end := Min(SegmentSeconds * i + SegmentSeconds, duration);
    Segment(i + 1, start, end, KoreanField(originalIsKorean, texts[i % |texts|], start, end))
  }

  /** The whole transcript, as a value. */
  function Segments(duration: nat, texts: seq<string>, originalIsKorean: bool): seq<Segment>
    requires |texts| > 0
  {
    seq(SegmentCount(duration), i requires 0 <= i => SegmentAt(i, duration, texts, originalIsKorean))
  }

  /**
   * The segments tile the video: the first starts at 0, each starts where the previous one ended,
   * the last ends at the duration, every segment is non-empty and at most 5 seconds long, and the
   * ids run 1, 2, 3, ...; the `korean` field holds the cycled sample line exactly for a Korean
   * original, and otherwise the placeholder of the segment's own span
   */
  lemma SegmentsTile(duration: nat, texts: seq<string>, originalIsKorean: bool)
    requires |texts| > 0
    ensures var s := Segments(duration, texts, originalIsKorean);
      && (duration == 0 <==> s == [])
      && (s != [] ==> s[0].startTime == 0 && s[|s| - 1].endTime == duration)
      && (forall i :: 0 <= i < |s| - 1 ==> s[i].endTime == s[i + 1].startTime)
      && (forall i :: 0 <= i < |s| ==> s[i].startTime < s[i].endTime <= s[i].startTime + SegmentSeconds)
      && (forall i :: 0 <= i < |s| ==> s[i].id == i + 1)
      && (forall i :: 0 <= i < |s| ==>
            s[i].korean == if originalIsKorean then texts[i % |texts|] else Placeholder(s[i].startTime, s[i].endTime))
  {
  }

  /**
   * The generator loop: `texts` is the sample-line table of the original language (never empty:
   * an unknown language falls back to the "auto" table); `originalIsKorean` is the test
   * `originalLang === 'ko'`.
   */
  method GenerateSampleTranscriptions(duration: nat, texts: seq<string>, originalIsKorean: bool) returns (segments: seq<Segment>)
    requires |texts| > 0
    ensures segments == Segments(duration, texts, originalIsKorean)
  {
    segments := [];
    var currentTime: nat := 0;
    var segmentId: nat := 1;
    var textIndex: nat := 0;
    while currentTime < duration
      invariant textIndex == |segments| && segmentId == textIndex + 1
      invariant currentTime == Min(SegmentSeconds * textIndex, duration)
      invariant textIndex <= SegmentCount(duration)
      invariant textIndex < SegmentCount(duration) ==> currentTime < duration
      invariant forall i :: 0 <= i < |segments| ==> segments[i] == SegmentAt(i, duration, texts, originalIsKorean)
      decreases duration - currentTime
    {
      var endTime := Min(currentTime + SegmentSeconds, duration);
      var originalText := texts[textIndex % |texts|];
      var korean := if originalIsKorean then originalText else Placeholder(currentTime, endTime);
      segments := segments + [Segment(segmentId, currentTime, endTime, korean)];
      segmentId := segmentId + 1;
      currentTime := endTime;
      textIndex := textIndex + 1;
    }
  }
}
