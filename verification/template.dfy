/**
 * JavaScript template literals: a template `a${x}b${y}c` is its literal
 * chunks ["a", "b", "c"] with values spliced between consecutive chunks.
 * The one general fact proved here is that every spliced value occurs in the
 * result, whole, in the order the placeholders appear.
 */
module Template {

  /** `chunks[0] + values[0] + chunks[1] + ... + values[n-1] + chunks[n]`. */
  function Fill(chunks: seq<string>, values: seq<string>): string
    requires |chunks| == |values| + 1
    decreases |values|
  {
    if |values| == 0 then chunks[0]
    else chunks[0] + values[0] + Fill(chunks[1..], values[1..])
  }

  /** `p` occurs in `s` starting at index `i`. */
  predicate OccursAt(s: string, p: string, i: nat)
  {
    i + |p| <= |s| && s[i..i + |p|] == p
  }

  /** `offsets` places each of `parts` in `s`, left to right, without overlap. */
  predicate IsEmbedding(s: string, parts: seq<string>, offsets: seq<nat>)
  {
    && |offsets| == |parts|
    && (forall k :: 0 <= k < |parts| ==> OccursAt(s, parts[k], offsets[k]))
    && (forall k :: 0 <= k < |parts| - 1 ==> offsets[k] + |parts[k]| <= offsets[k + 1])
  }

  /** Every one of `parts` occurs in `s`, in this order and without overlap. */
  ghost predicate InOrder(s: string, parts: seq<string>)
  {
    exists offsets :: IsEmbedding(s, parts, offsets)
  }

  /** Where `Fill` puts each value. */
  function Offsets(chunks: seq<string>, values: seq<string>): (r: seq<nat>)
    requires |chunks| == |values| + 1
    ensures |r| == |values|
    decreases |values|
  {
    if |values| == 0 then []
    else [|chunks[0]|] + Shift(Offsets(chunks[1..], values[1..]), |chunks[0]| + |values[0]|)
  }

  function Shift(offsets: seq<nat>, d: nat): (r: seq<nat>)
    ensures |r| == |offsets|
    ensures forall k :: 0 <= k < |r| ==> r[k] == offsets[k] + d
  {
    seq(|offsets|, k requires 0 <= k < |offsets| => offsets[k] + d)
  }

  /** An embedding survives putting text in front of the string. */
  lemma EmbeddingShift(pre: string, s: string, parts: seq<string>, offsets: seq<nat>)
    requires IsEmbedding(s, parts, offsets)
    ensures IsEmbedding(pre + s, parts, Shift(offsets, |pre|))
  {
    var t := Shift(offsets, |pre|);
    forall k | 0 <= k < |parts|
      ensures OccursAt(pre + s, parts[k], t[k])
    {
      assert (pre + s)[t[k]..t[k] + |parts[k]|] == s[offsets[k]..offsets[k] + |parts[k]|];
    }
  }

  /** The values of a filled template occur in it in placeholder order. */
  lemma {:induction false} FillEmbeds(chunks: seq<string>, values: seq<string>)
    requires |chunks| == |values| + 1
    ensures IsEmbedding(Fill(chunks, values), values, Offsets(chunks, values))
    decreases |values|
  {
    if |values| > 0 {
      var head := chunks[0] + values[0];
      var tail := Fill(chunks[1..], values[1..]);
      var inner := Offsets(chunks[1..], values[1..]);
      FillEmbeds(chunks[1..], values[1..]);
      EmbeddingShift(head, tail, values[1..], inner);
      var s := Fill(chunks, values);
      var r := Offsets(chunks, values);
      assert s == head + tail;
      assert r == [|chunks[0]|] + Shift(inner, |head|);
      assert OccursAt(s, values[0], r[0]) by {
        assert s[|chunks[0]|..|chunks[0]| + |values[0]|] == values[0];
      }
      forall k | 1 <= k < |values|
        ensures OccursAt(s, values[k], r[k])
      {
        assert values[1..][k - 1] == values[k];
      }
      forall k | 0 <= k < |values| - 1
        ensures r[k] + |values[k]| <= r[k + 1]
      {
        if k > 0 {
          assert values[1..][k - 1] == values[k];
        }
      }
    }
  }

  lemma FillInOrder(chunks: seq<string>, values: seq<string>)
    requires |chunks| == |values| + 1
    ensures InOrder(Fill(chunks, values), values)
  {
    FillEmbeds(chunks, values);
  }

  /** Text around a string does not disturb what occurs in it in order. */
  lemma InOrderWithin(pre: string, s: string, post: string, parts: seq<string>)
    requires InOrder(s, parts)
    ensures InOrder(pre + s + post, parts)
  {
    var offsets :| IsEmbedding(s, parts, offsets);
    EmbeddingShift(pre, s, parts, offsets);
    var shifted := Shift(offsets, |pre|);
    var t := pre + s;
    forall k | 0 <= k < |parts|
      ensures OccursAt(t + post, parts[k], shifted[k])
    {
      assert (t + post)[shifted[k]..shifted[k] + |parts[k]|] == t[shifted[k]..shifted[k] + |parts[k]|];
    }
    assert IsEmbedding(t + post, parts, shifted);
  }

  /** A value spliced into a template is a substring of the result. */
  lemma FillContains(chunks: seq<string>, values: seq<string>, k: nat)
    requires |chunks| == |values| + 1 && k < |values|
    ensures exists i: nat :: OccursAt(Fill(chunks, values), values[k], i)
  {
    FillEmbeds(chunks, values);
    var offsets := Offsets(chunks, values);
    assert OccursAt(Fill(chunks, values), values[k], offsets[k]);
  }

  /** A string put in front of another is embedded before whatever is
      embedded in the other. */
  lemma InOrderCons(pre: string, s: string, parts: seq<string>)
    requires InOrder(s, parts)
    ensures InOrder(pre + s, [pre] + parts)
  {
    var offsets :| IsEmbedding(s, parts, offsets);
    EmbeddingShift(pre, s, parts, offsets);
    var t := pre + s;
    var shifted := Shift(offsets, |pre|);
    var all := [pre] + parts;
    var at := [0] + shifted;
    assert OccursAt(t, pre, 0) by {
      assert t[..|pre|] == pre;
    }
    forall k | 1 <= k < |all|
      ensures OccursAt(t, all[k], at[k])
    {
      assert all[k] == parts[k - 1] && at[k] == shifted[k - 1];
    }
    forall k | 0 <= k < |all| - 1
      ensures at[k] + |all[k]| <= at[k + 1]
    {
      if k > 0 {
        assert all[k] == parts[k - 1] && at[k] == shifted[k - 1] && at[k + 1] == shifted[k];
      }
    }
    assert IsEmbedding(t, all, at);
  }

  /** The last of several parts in order occurs on its own. */
  lemma InOrderLast(s: string, parts: seq<string>)
    requires InOrder(s, parts) && |parts| > 0
    ensures InOrder(s, [parts[|parts| - 1]])
  {
    var offsets :| IsEmbedding(s, parts, offsets);
    assert IsEmbedding(s, [parts[|parts| - 1]], [offsets[|parts| - 1]]);
  }
}
