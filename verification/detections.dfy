/** Detector output as the app sees it, and the tag summary both activities
    derive from it. In the app each detection is a string-keyed map; here the
    keys the app reads become typed fields. */
module Detections {
  import opened Wrappers

  /** One polygon vertex, in the coordinate space of the preview. */
  datatype Point = Point(x: real, y: real)

  /** The `tag` entry of a detection map: no `tag` key at all, a key holding
      null, or a class name. */
  datatype TagField = Absent | Null | Named(name: string)

  /** One detection: its tag, an optional polygon (the `polygons` entry, a list
      of points) and an optional box (the `box` entry, an array of floats that
      the renderer reads as left, top, right, bottom, confidence). */
  datatype Detection = Detection(tag: TagField, polygon: Option<seq<Point>>, box: Option<seq<real>>)

  /** The tag list published after a detector run: the tag of every entry that
      has a `tag` key, in output order, duplicates kept. A key holding null
      contributes a null entry. */
  function TagSummary(output: seq<Detection>): (tags: seq<TagField>)
    ensures |tags| <= |output|
    ensures forall i :: 0 <= i < |tags| ==> tags[i] != Absent
    ensures forall t :: t in tags <==> t != Absent && exists i :: 0 <= i < |output| && output[i].tag == t
  {
    if |output| == 0 then []
    else
      var rest := TagSummary(output[1..]);
      assert forall i :: 0 <= i < |output[1..]| ==> output[1..][i] == output[i + 1];
      if output[0].tag == Absent then rest else [output[0].tag] + rest
  }

  /** How many entries of `output` carry exactly the tag `t`. */
  function CountTag(output: seq<Detection>, t: TagField): nat
  {
    if |output| == 0 then 0
    else (if output[0].tag == t then 1 else 0) + CountTag(output[1..], t)
  }

  /** The summary of a concatenation is the concatenation of the summaries:
      the summary keeps the detector's output order. */
  lemma {:induction false} TagSummaryConcat(a: seq<Detection>, b: seq<Detection>)
    ensures TagSummary(a + b) == TagSummary(a) + TagSummary(b)
    decreases |a|
  {
    if |a| == 0 {
      assert a + b == b;
    } else {
      assert (a + b)[1..] == a[1..] + b;
      TagSummaryConcat(a[1..], b);
    }
  }

  /** Duplicates are kept: every present tag occurs in the summary exactly as
      often as detections carry it. */
  lemma {:induction false} TagSummaryKeepsDuplicates(output: seq<Detection>, t: TagField)
    requires t != Absent
    ensures multiset(TagSummary(output))[t] == CountTag(output, t)
    decreases |output|
  {
    if |output| > 0 {
      TagSummaryKeepsDuplicates(output[1..], t);
      var rest := TagSummary(output[1..]);
      if output[0].tag != Absent {
        assert multiset([output[0].tag] + rest) == multiset([output[0].tag]) + multiset(rest);
      }
    }
  }
}
