/**
 The disk: an array of fixed-size blocks, changed one block write at a time.
 A block is a sequence of 32-bit words; the log header is read out of one.
 */
module Disk {

  const BSIZE := 1024
  const WORDS := 256

  type Block = b: seq<int> | |b| == WORDS witness seq(WORDS, _ => 0)

  type Image = seq<Block>

  datatype Write = Write(bno: nat, data: Block)

  predicate InRange(d: Image, ws: seq<Write>) {
    forall i :: 0 <= i < |ws| ==> ws[i].bno < |d|
  }

  /** The disk after the given block writes, in order. */
  function ApplyAll(d: Image, ws: seq<Write>): (r: Image)
    requires InRange(d, ws)
    ensures |r| == |d|
    decreases |ws|
  {
    if ws == [] then d
    else ApplyAll(d, ws[..|ws| - 1])[ws[|ws| - 1].bno := ws[|ws| - 1].data]
  }

  lemma {:induction false} ApplyAllAppend(d: Image, us: seq<Write>, ws: seq<Write>)
    requires InRange(d, us) && InRange(d, ws)
    ensures InRange(d, us + ws)
    ensures ApplyAll(d, us + ws) == ApplyAll(ApplyAll(d, us), ws)
    decreases |ws|
  {
    if ws == [] {
      assert us + ws == us;
    } else {
      var init := ws[..|ws| - 1];
      ApplyAllAppend(d, us, init);
      assert (us + ws)[..|us + ws| - 1] == us + init;
    }
  }

  lemma ApplyAllPush(d: Image, ws: seq<Write>, w: Write)
    requires InRange(d, ws) && w.bno < |d|
    ensures InRange(d, ws + [w]) && ApplyAll(d, ws + [w]) == ApplyAll(d, ws)[w.bno := w.data]
  {
    assert (ws + [w])[..|ws|] == ws;
  }

  lemma ApplyAllStep(d: Image, ws: seq<Write>, k: nat)
    requires InRange(d, ws) && k < |ws|
    ensures ApplyAll(d, ws[..k + 1]) == ApplyAll(d, ws[..k])[ws[k].bno := ws[k].data]
  {
    assert ws[..k + 1][..k] == ws[..k];
  }

  /** A block that no write names keeps its contents. */
  lemma {:induction false} ApplyAllFrame(d: Image, ws: seq<Write>, b: nat)
    requires InRange(d, ws) && b < |d|
    requires forall i :: 0 <= i < |ws| ==> ws[i].bno != b
    ensures ApplyAll(d, ws)[b] == d[b]
    decreases |ws|
  {
    if ws != [] {
      ApplyAllFrame(d, ws[..|ws| - 1], b);
    }
  }

  /** Writes to distinct blocks each stick. */
  lemma {:induction false} ApplyAllHit(d: Image, ws: seq<Write>, j: nat)
    requires InRange(d, ws) && j < |ws|
    requires forall i, k :: 0 <= i < k < |ws| ==> ws[i].bno != ws[k].bno
    ensures ApplyAll(d, ws)[ws[j].bno] == ws[j].data
    decreases |ws|
  {
    if j < |ws| - 1 {
      ApplyAllHit(d, ws[..|ws| - 1], j);
    }
  }
}
