/** The greedy split of the /list_questions listing into Discord messages
    (commands/crud_questions.py): the header and the question lines are
    gathered into blocks of at most 2000 characters, a block closing just
    before the line that would overflow it. `SplitAt` states the rule over
    item positions; `Loop` is the state of the loop that builds it. */
module Chunking {
  import opened Common

  const MessageLimit: nat := 2000

  /** Every block holds at least one character. */
  predicate AllNonEmpty(blocks: seq<string>)
  {
    forall k :: 0 <= k < |blocks| ==> |blocks[k]| > 0
  }

  /** Every block fits in one message. */
  predicate AllFit(blocks: seq<string>)
  {
    forall k :: 0 <= k < |blocks| ==> |blocks[k]| <= MessageLimit
  }

  /** No two neighbouring blocks would fit in one message, nor would the last
      block together with the text gathered after it. */
  predicate Greedy(blocks: seq<string>, current: string)
  {
    && (forall k :: 0 <= k < |blocks| - 1 ==> |blocks[k]| + |blocks[k + 1]| > MessageLimit)
    && (|blocks| > 0 ==> |blocks[|blocks| - 1]| + |current| > MessageLimit)
  }

  /** What holds of the blocks closed so far and the block being filled:
      neighbours are too long to merge, and the blocks are non-empty and fit
      whenever the header and lines are and do. */
  predicate Chunked(blocks: seq<string>, current: string, nonEmpty: bool, fits: bool)
  {
    && Greedy(blocks, current)
    && (nonEmpty ==> |current| > 0 && AllNonEmpty(blocks))
    && (fits ==> |current| <= MessageLimit && AllFit(blocks))
  }

  /** One line of the loop: close the block first when the line would take
      it past the limit, then add the line. */
  function AddLine(blocks: seq<string>, current: string, line: string): (seq<string>, string)
  {
    if |current| + |line| > MessageLimit then (blocks + [current], line)
    else (blocks, current + line)
  }

  /** Adding a line keeps the text in order. */
  lemma AddLineText(blocks: seq<string>, current: string, line: string)
    ensures Concat(AddLine(blocks, current, line).0) + AddLine(blocks, current, line).1
         == Concat(blocks) + current + line
  {
    if |current| + |line| > MessageLimit {
      ConcatAppend(blocks, current);
    } else {
      assert Concat(blocks) + (current + line) == Concat(blocks) + current + line;
    }
  }

  /** Adding a line keeps `Chunked`, and never leaves nothing behind. */
  lemma AddLineKeeps(blocks: seq<string>, current: string, line: string, nonEmpty: bool, fits: bool)
    requires Chunked(blocks, current, nonEmpty, fits)
    requires nonEmpty ==> |line| > 0
    requires fits ==> |line| <= MessageLimit
    ensures Chunked(AddLine(blocks, current, line).0, AddLine(blocks, current, line).1, nonEmpty, fits)
    ensures |blocks| > 0 || |current| > 0 ==> |AddLine(blocks, current, line).0| > 0 || |AddLine(blocks, current, line).1| > 0
  {
  }

  /** Closing the last block keeps neighbouring blocks too long to merge. */
  lemma CloseLastBlock(blocks: seq<string>, current: string, nonEmpty: bool, fits: bool)
    requires Chunked(blocks, current, nonEmpty, fits)
    ensures var bs := blocks + [current];
      && (forall k :: 0 <= k < |bs| - 1 ==> |bs[k]| + |bs[k + 1]| > MessageLimit)
      && (nonEmpty ==> AllNonEmpty(bs))
      && (fits ==> AllFit(bs))
      && Concat(bs) == Concat(blocks) + current
  {
    ConcatAppend(blocks, current);
  }

  /** The text so far grows by the next line. */
  lemma AddLineStep(blocks: seq<string>, current: string, header: string, lines: seq<string>, i: nat)
    requires i < |lines| && Concat(blocks) + current == header + Concat(lines[..i])
    ensures Concat(AddLine(blocks, current, lines[i]).0) + AddLine(blocks, current, lines[i]).1 ==
            header + Concat(lines[..i + 1])
  {
    assert lines[..i + 1] == lines[..i] + [lines[i]];
    ConcatAppend(lines[..i], lines[i]);
    AddLineText(blocks, current, lines[i]);
  }

  /** Item `j` still fitted into the block that starts at item `start`. */
  ghost predicate Fits(items: seq<string>, start: nat, j: nat)
  {
    start <= j < |items| && |Concat(items[start..j])| + |items[j]| <= MessageLimit
  }

  /** `blocks` is the greedy split of `items` (the header followed by the
      lines) at the item positions `cuts`. Block `k` is the text of items
      `cuts[k]` up to `cuts[k + 1]`. Every block but the last closed
      because its next item would have taken it past the limit, and every
      item inside a block fitted when it was added. The last block is
      dropped when it is empty. */
  ghost predicate SplitAt(items: seq<string>, cuts: seq<nat>, blocks: seq<string>)
  {
    && |cuts| >= 2 && cuts[0] == 0 && cuts[|cuts| - 1] == |items|
    && (forall k :: 0 <= k < |cuts| - 1 ==> cuts[k] < |items|)
    && (forall k :: 0 <= k < |cuts| - 1 ==> cuts[k] < cuts[k + 1])
    && |blocks| == (if Concat(items[cuts[|cuts| - 2]..]) == "" then |cuts| - 2 else |cuts| - 1)
    && (forall k :: 0 <= k < |blocks| ==> blocks[k] == Concat(items[cuts[k]..cuts[k + 1]]))
    && (forall k :: 0 <= k < |cuts| - 2 ==>
          |Concat(items[cuts[k]..cuts[k + 1]])| + |items[cuts[k + 1]]| > MessageLimit)
    && (forall k, j :: 0 <= k < |cuts| - 1 && cuts[k] < j < cuts[k + 1] ==> Fits(items, cuts[k], j))
  }

  /** The loop state: the blocks closed so far, cut at `cuts`, and the block
      being filled, which starts at the last cut and has taken the items
      before `next`. */
  ghost predicate CutsSoFar(items: seq<string>, cuts: seq<nat>, blocks: seq<string>, next: nat)
  {
    && |cuts| == |blocks| + 1 && cuts[0] == 0 && next <= |items|
    && (forall k :: 0 <= k < |cuts| ==> cuts[k] < next)
    && (forall k :: 0 <= k < |blocks| ==> cuts[k] < cuts[k + 1])
    && (forall k :: 0 <= k < |blocks| ==> blocks[k] == Concat(items[cuts[k]..cuts[k + 1]]))
    && (forall k :: 0 <= k < |blocks| ==> |blocks[k]| + |items[cuts[k + 1]]| > MessageLimit)
    && (forall k, j :: 0 <= k < |blocks| && cuts[k] < j < cuts[k + 1] ==> Fits(items, cuts[k], j))
    && (forall j :: cuts[|blocks|] < j < next ==> Fits(items, cuts[|blocks|], j))
  }

  lemma ConcatSliceSnoc(items: seq<string>, a: nat, n: nat)
    requires a <= n < |items|
    ensures Concat(items[a..n + 1]) == Concat(items[a..n]) + items[n]
  {
    assert items[a..n + 1] == items[a..n] + [items[n]];
    ConcatAppend(items[a..n], items[n]);
  }

  /** Before the loop: no block is closed and the header fills the first. */
  lemma CutsStart(header: string, lines: seq<string>)
    ensures CutsSoFar([header] + lines, [0], [], 1)
    ensures header == Concat(([header] + lines)[0..1])
  {
    assert ([header] + lines)[0..1] == [header];
  }

  /** A line that fits joins the block being filled. */
  lemma CutsExtend(items: seq<string>, cuts: seq<nat>, blocks: seq<string>, current: string, n: nat)
    requires CutsSoFar(items, cuts, blocks, n) && n < |items|
    requires current == Concat(items[cuts[|blocks|]..n])
    requires |current| + |items[n]| <= MessageLimit
    ensures CutsSoFar(items, cuts, blocks, n + 1)
    ensures current + items[n] == Concat(items[cuts[|blocks|]..n + 1])
  {
    ConcatSliceSnoc(items, cuts[|blocks|], n);
    assert Fits(items, cuts[|blocks|], n);
  }

  /** A line that does not fit closes the block being filled and starts the
      next one. */
  lemma CutsClosing(items: seq<string>, cuts: seq<nat>, blocks: seq<string>, current: string, n: nat)
    requires CutsSoFar(items, cuts, blocks, n) && n < |items|
    requires current == Concat(items[cuts[|blocks|]..n])
    requires |current| + |items[n]| > MessageLimit
    ensures CutsSoFar(items, cuts + [n], blocks + [current], n + 1)
    ensures items[n] == Concat(items[n..n + 1])
  {
    var cuts' := cuts + [n];
    var blocks' := blocks + [current];
    assert items[n..n + 1] == [items[n]];
    assert cuts'[|blocks|] == cuts[|blocks|] && cuts'[|blocks| + 1] == n && blocks'[|blocks|] == current;
  }

  /** An empty block being filled is dropped: the closed blocks are the
      split. */
  lemma CutsCloseEmpty(items: seq<string>, cuts: seq<nat>, blocks: seq<string>)
    requires CutsSoFar(items, cuts, blocks, |items|)
    requires Concat(items[cuts[|blocks|]..]) == ""
    ensures SplitAt(items, cuts + [|items|], blocks)
  {
    var cuts' := cuts + [|items|];
    assert cuts'[|cuts'| - 2] == cuts[|blocks|] && cuts'[|cuts'| - 1] == |items|;
    assert forall k :: 0 <= k < |cuts| ==> cuts'[k] == cuts[k];
  }

  /** A non-empty block being filled is the last block of the split. */
  lemma CutsCloseLast(items: seq<string>, cuts: seq<nat>, blocks: seq<string>, current: string)
    requires CutsSoFar(items, cuts, blocks, |items|)
    requires current == Concat(items[cuts[|blocks|]..]) && |current| > 0
    ensures SplitAt(items, cuts + [|items|], blocks + [current])
  {
    var cuts' := cuts + [|items|];
    var bs := blocks + [current];
    assert cuts'[|cuts'| - 2] == cuts[|blocks|] && cuts'[|cuts'| - 1] == |items|;
    assert items[cuts[|blocks|]..] == items[cuts'[|blocks|]..cuts'[|blocks| + 1]];
    assert forall k :: 0 <= k < |cuts| ==> cuts'[k] == cuts[k];
    assert forall k :: 0 <= k < |blocks| ==> bs[k] == blocks[k];
  }

  /** Closing the last block turns the loop state into the split. */
  lemma CutsClose(items: seq<string>, cuts: seq<nat>, blocks: seq<string>, current: string)
    requires CutsSoFar(items, cuts, blocks, |items|)
    requires current == Concat(items[cuts[|blocks|]..])
    ensures SplitAt(items, cuts + [|items|], if |current| > 0 then blocks + [current] else blocks)
  {
    if |current| > 0 {
      CutsCloseLast(items, cuts, blocks, current);
    } else {
      CutsCloseEmpty(items, cuts, blocks);
    }
  }

  /** Both splits cut at the same place as long as both have a cut there. */
  lemma {:induction false} CutsAgree(items: seq<string>, c1: seq<nat>, b1: seq<string>, c2: seq<nat>, b2: seq<string>,
                                     k: nat)
    requires SplitAt(items, c1, b1) && SplitAt(items, c2, b2)
    requires k < |c1| && k < |c2|
    ensures c1[k] == c2[k]
    decreases k
  {
    if k > 0 {
      CutsAgree(items, c1, b1, c2, b2, k - 1);
      var a := c1[k - 1];
      assert c1[k] < |items| ==> k - 1 < |c1| - 2;
      assert c2[k] < |items| ==> k - 1 < |c2| - 2;
      assert c1[k] < |items| ==> !Fits(items, a, c1[k]);
      assert c2[k] < |items| ==> !Fits(items, a, c2[k]);
    }
  }

  /** Two splits of the same items have the same number of cuts. */
  lemma SplitAtSameLength(items: seq<string>, c1: seq<nat>, b1: seq<string>, c2: seq<nat>, b2: seq<string>)
    requires SplitAt(items, c1, b1) && SplitAt(items, c2, b2)
    ensures |c1| == |c2|
  {
    var m := (if |c1| < |c2| then |c1| else |c2|) - 1;
    CutsAgree(items, c1, b1, c2, b2, m);
    assert c1[|c1| - 1] == |items| && c2[|c2| - 1] == |items|;
  }

  /** Two splits of the same items cut at the same places. */
  lemma SplitAtSameCuts(items: seq<string>, c1: seq<nat>, b1: seq<string>, c2: seq<nat>, b2: seq<string>)
    requires SplitAt(items, c1, b1) && SplitAt(items, c2, b2)
    ensures c1 == c2
  {
    SplitAtSameLength(items, c1, b1, c2, b2);
    forall k | 0 <= k < |c1| ensures c1[k] == c2[k] { CutsAgree(items, c1, b1, c2, b2, k); }
  }

  /** The cuts determine the blocks. */
  lemma SplitAtSameBlocks(items: seq<string>, cuts: seq<nat>, b1: seq<string>, b2: seq<string>)
    requires SplitAt(items, cuts, b1) && SplitAt(items, cuts, b2)
    ensures b1 == b2
  {
    assert |b1| == |b2|;
    forall k | 0 <= k < |b1| ensures b1[k] == b2[k] {
      assert b1[k] == Concat(items[cuts[k]..cuts[k + 1]]);
    }
  }

  /** The split rule leaves no choice: the same items have one split. */
  lemma SplitAtUnique(items: seq<string>, c1: seq<nat>, b1: seq<string>, c2: seq<nat>, b2: seq<string>)
    requires SplitAt(items, c1, b1) && SplitAt(items, c2, b2)
    ensures c1 == c2 && b1 == b2
  {
    SplitAtSameCuts(items, c1, b1, c2, b2);
    SplitAtSameBlocks(items, c1, b1, b2);
  }

  /** The state of the loop: the blocks closed so far, the block being
      filled, and where each block starts. */
  datatype Fill = Fill(blocks: seq<string>, current: string, cuts: seq<nat>)

  /** One line of the loop, the line being item `n` of the header and lines:
      a line that does not fit closes the block and starts one at `n`. */
  function Next(f: Fill, line: string, n: nat): Fill
  {
    var step := AddLine(f.blocks, f.current, line);
    Fill(step.0, step.1, if |f.current| + |line| > MessageLimit then f.cuts + [n] else f.cuts)
  }

  /** The loop state after the first `i` lines, as a fold over them. */
  function Filled(header: string, lines: seq<string>, i: nat): Fill
    requires i <= |lines|
    decreases i
  {
    if i == 0 then Fill([], header, [0]) else Next(Filled(header, lines, i - 1), lines[i - 1], i)
  }

  /** What holds of the loop state after `i` lines: the text so far is in
      order, the blocks are chunked, and the cuts describe them. */
  ghost predicate Loop(header: string, lines: seq<string>, i: nat, f: Fill)
  {
    match f
    case Fill(blocks, current, cuts) =>
      && i <= |lines|
      && Concat(blocks) + current == header + Concat(lines[..i])
      && Chunked(blocks, current, |header| > 0 && AllNonEmpty(lines), |header| <= MessageLimit && AllFit(lines))
      && (|header| > 0 ==> |blocks| > 0 || |current| > 0)
      && CutsSoFar([header] + lines, cuts, blocks, i + 1)
      && current == Concat(([header] + lines)[cuts[|blocks|]..i + 1])
  }

  lemma LoopStart(header: string, lines: seq<string>)
    ensures Loop(header, lines, 0, Fill([], header, [0]))
  {
    CutsStart(header, lines);
    assert lines[..0] == [];
  }

  /** A line that does not fit closes the block and starts the next. */
  lemma LoopClosing(header: string, lines: seq<string>, i: nat, blocks: seq<string>, current: string, cuts: seq<nat>)
    requires Loop(header, lines, i, Fill(blocks, current, cuts)) && i < |lines|
    requires |current| + |lines[i]| > MessageLimit
    ensures Loop(header, lines, i + 1, Fill(blocks + [current], lines[i], cuts + [i + 1]))
  {
    var items := [header] + lines;
    AddLineStep(blocks, current, header, lines, i);
    AddLineKeeps(blocks, current, lines[i], |header| > 0 && AllNonEmpty(lines), |header| <= MessageLimit && AllFit(lines));
    assert items[i + 1] == lines[i];
    CutsClosing(items, cuts, blocks, current, i + 1);
  }

  /** A line that fits joins the block being filled. */
  lemma LoopExtend(header: string, lines: seq<string>, i: nat, blocks: seq<string>, current: string, cuts: seq<nat>)
    requires Loop(header, lines, i, Fill(blocks, current, cuts)) && i < |lines|
    requires |current| + |lines[i]| <= MessageLimit
    ensures Loop(header, lines, i + 1, Fill(blocks, current + lines[i], cuts))
  {
    var items := [header] + lines;
    AddLineStep(blocks, current, header, lines, i);
    AddLineKeeps(blocks, current, lines[i], |header| > 0 && AllNonEmpty(lines), |header| <= MessageLimit && AllFit(lines));
    assert items[i + 1] == lines[i];
    CutsExtend(items, cuts, blocks, current, i + 1);
  }

  lemma LoopStep(header: string, lines: seq<string>, i: nat, f: Fill)
    requires Loop(header, lines, i, f) && i < |lines|
    ensures Loop(header, lines, i + 1, Next(f, lines[i], i + 1))
  {
    if |f.current| + |lines[i]| > MessageLimit {
      LoopClosing(header, lines, i, f.blocks, f.current, f.cuts);
    } else {
      LoopExtend(header, lines, i, f.blocks, f.current, f.cuts);
    }
  }

  /** The fold keeps the loop state. */
  lemma {:induction false} FilledLoop(header: string, lines: seq<string>, i: nat)
    requires i <= |lines|
    ensures Loop(header, lines, i, Filled(header, lines, i))
    decreases i
  {
    if i == 0 {
      LoopStart(header, lines);
    } else {
      FilledLoop(header, lines, i - 1);
      LoopStep(header, lines, i - 1, Filled(header, lines, i - 1));
    }
  }

  /** After the last line, the cuts describe the split. */
  lemma LoopEndCuts(header: string, lines: seq<string>)
    ensures var f := Filled(header, lines, |lines|);
      SplitAt([header] + lines, f.cuts + [|lines| + 1], if |f.current| > 0 then f.blocks + [f.current] else f.blocks)
  {
    var f := Filled(header, lines, |lines|);
    FilledLoop(header, lines, |lines|);
    var items := [header] + lines;
    assert items[f.cuts[|f.blocks|]..|lines| + 1] == items[f.cuts[|f.blocks|]..];
    CutsClose(items, f.cuts, f.blocks, f.current);
  }

  /** After the last line, the blocks hold all the text and are chunked. */
  lemma LoopEndChunks(header: string, lines: seq<string>)
    ensures var f := Filled(header, lines, |lines|);
      var final := if |f.current| > 0 then f.blocks + [f.current] else f.blocks;
      && Concat(final) == header + Concat(lines)
      && (|header| > 0 ==> |final| > 0)
      && (|header| > 0 && AllNonEmpty(lines) ==> AllNonEmpty(final))
      && (|header| <= MessageLimit && AllFit(lines) ==> AllFit(final))
      && (forall k :: 0 <= k < |final| - 1 ==> |final[k]| + |final[k + 1]| > MessageLimit)
  {
    var f := Filled(header, lines, |lines|);
    FilledLoop(header, lines, |lines|);
    assert lines[..|lines|] == lines;
    if |f.current| > 0 {
      CloseLastBlock(f.blocks, f.current, |header| > 0 && AllNonEmpty(lines), |header| <= MessageLimit && AllFit(lines));
    }
  }
}
