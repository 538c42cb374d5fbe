/** Fitting a brief into a token budget (grapharc/memory/retrieval.py). */
module Brief {
  import opened Texts

  /** Held back for the note that says what was left out. */
  const NOTE_RESERVE := 24

  datatype Block = Block(header: Text, entries: seq<Text>)

  type Counter = Text -> int

  // ---- What a brief shows, given how many entries of each block it keeps ----------------

  ghost predicate IsCut(blocks: seq<Block>, kept: seq<nat>) {
    |kept| == |blocks| && forall b :: 0 <= b < |blocks| ==> kept[b] <= |blocks[b].entries|
  }

  /** Each block with a kept entry shows its header and a prefix of its entries, after a blank line
      unless it is the first; a block without one shows nothing. */
  ghost function Render(blocks: seq<Block>, kept: seq<nat>): seq<Text>
    requires IsCut(blocks, kept)
  {
    if blocks == [] then []
    else
      var n := |blocks| - 1;
      var lines := Render(blocks[..n], kept[..n]);
      if kept[n] == 0 then lines
      else (if lines == [] then [] else lines + [Text("")]) + [blocks[n].header] + blocks[n].entries[..kept[n]]
  }

  ghost function EntriesCost(entries: seq<Text>, count: Counter): int {
    if entries == [] then 0 else EntriesCost(entries[..|entries| - 1], count) + count(entries[|entries| - 1])
  }

  /** The tokens charged for the lines shown; a blank line counts as one. */
  ghost function Cost(blocks: seq<Block>, kept: seq<nat>, count: Counter): int
    requires IsCut(blocks, kept)
  {
    if blocks == [] then 0
    else
      var n := |blocks| - 1;
      var before := Cost(blocks[..n], kept[..n], count);
      if kept[n] == 0 then before
      else
        before + count(blocks[n].header) + (if Render(blocks[..n], kept[..n]) == [] then 0 else 1)
        + EntriesCost(blocks[n].entries[..kept[n]], count)
  }

  ghost function Total(blocks: seq<Block>): nat {
    if blocks == [] then 0 else Total(blocks[..|blocks| - 1]) + |blocks[|blocks| - 1].entries|
  }

  ghost function Sum(kept: seq<nat>): nat {
    if kept == [] then 0 else Sum(kept[..|kept| - 1]) + kept[|kept| - 1]
  }

  /** Nothing was cut short of need: in block `b` everything is kept, or the next entry, with the
      header and separator it needs, would not have fitted after the blocks before it. */
  ghost predicate CutWhereFull(blocks: seq<Block>, kept: seq<nat>, budget: int, count: Counter, b: nat)
    requires IsCut(blocks, kept) && b < |blocks|
  {
    var entries, before := blocks[b].entries, Cost(blocks[..b], kept[..b], count);
    var head := count(blocks[b].header) + if Render(blocks[..b], kept[..b]) == [] then 0 else 1;
    kept[b] == |entries| || before + head + EntriesCost(entries[..kept[b] + 1], count) > budget
  }

  ghost predicate FullCut(blocks: seq<Block>, kept: seq<nat>, budget: int, count: Counter)
    requires IsCut(blocks, kept)
  {
    forall b: nat :: b < |blocks| ==> CutWhereFull(blocks, kept, budget, count, b)
  }

  // ---- Growing a cut by one block ------------------------------------------------------

  lemma CutGrows(blocks: seq<Block>, kept: seq<nat>, n: nat, k: nat, count: Counter)
    requires n < |blocks| && IsCut(blocks[..n], kept) && k <= |blocks[n].entries|
    ensures IsCut(blocks[..n + 1], kept + [k])
    ensures Sum(kept + [k]) == Sum(kept) + k && Total(blocks[..n + 1]) == Total(blocks[..n]) + |blocks[n].entries|
    ensures var lines := Render(blocks[..n], kept);
      Render(blocks[..n + 1], kept + [k])
      == if k == 0 then lines
         else (if lines == [] then [] else lines + [Text("")]) + [blocks[n].header] + blocks[n].entries[..k]
    ensures Cost(blocks[..n + 1], kept + [k], count)
         == Cost(blocks[..n], kept, count)
            + if k == 0 then 0
              else count(blocks[n].header) + (if Render(blocks[..n], kept) == [] then 0 else 1)
                   + EntriesCost(blocks[n].entries[..k], count)
  {
    assert blocks[..n + 1][..n] == blocks[..n] && (kept + [k])[..n] == kept;
  }

  lemma FullStaysFull(blocks: seq<Block>, kept: seq<nat>, n: nat, k: nat, budget: int, count: Counter, b: nat)
    requires n < |blocks| && IsCut(blocks[..n], kept) && k <= |blocks[n].entries| && b < n
    requires CutWhereFull(blocks[..n], kept, budget, count, b)
    ensures IsCut(blocks[..n + 1], kept + [k]) && CutWhereFull(blocks[..n + 1], kept + [k], budget, count, b)
  {
    hide Render, Cost, EntriesCost;
    assert blocks[..n + 1][..b] == blocks[..n][..b];
    assert (kept + [k])[..b] == kept[..b];
  }

  /** The last block is cut where it is full. */
  ghost predicate LastIsFull(blocks: seq<Block>, kept: seq<nat>, n: nat, k: nat, budget: int, count: Counter)
    requires n < |blocks| && IsCut(blocks[..n], kept) && k <= |blocks[n].entries|
  {
    var head := count(blocks[n].header) + if Render(blocks[..n], kept) == [] then 0 else 1;
    k == |blocks[n].entries|
    || Cost(blocks[..n], kept, count) + head + EntriesCost(blocks[n].entries[..k + 1], count) > budget
  }

  lemma LastIsCutWhereFull(blocks: seq<Block>, kept: seq<nat>, n: nat, k: nat, budget: int, count: Counter)
    requires n < |blocks| && IsCut(blocks[..n], kept) && k <= |blocks[n].entries|
    requires LastIsFull(blocks, kept, n, k, budget, count)
    ensures IsCut(blocks[..n + 1], kept + [k]) && CutWhereFull(blocks[..n + 1], kept + [k], budget, count, n)
  {
    hide Render, Cost, EntriesCost;
    assert blocks[..n + 1][..n] == blocks[..n] && (kept + [k])[..n] == kept;
  }

  lemma FullCutGrows(blocks: seq<Block>, kept: seq<nat>, n: nat, k: nat, budget: int, count: Counter)
    requires n < |blocks| && IsCut(blocks[..n], kept) && k <= |blocks[n].entries|
    requires FullCut(blocks[..n], kept, budget, count) && LastIsFull(blocks, kept, n, k, budget, count)
    ensures IsCut(blocks[..n + 1], kept + [k]) && FullCut(blocks[..n + 1], kept + [k], budget, count)
  {
    hide CutWhereFull, LastIsFull, IsCut;
    LastIsCutWhereFull(blocks, kept, n, k, budget, count);
    var blocks', kept' := blocks[..n + 1], kept + [k];
    forall b: nat | b < |blocks'| ensures CutWhereFull(blocks', kept', budget, count, b) {
      if b < n {
        FullStaysFull(blocks, kept, n, k, budget, count, b);
      }
    }
  }

  // ---- The method ----------------------------------------------------------------------

  /** How many leading entries fit once the header has been paid for. */
  method KeepEntries(entries: seq<Text>, spent: int, headCost: int, budget: int, count: Counter)
    returns (kept: nat, cost: int)
    ensures kept <= |entries| && cost == headCost + EntriesCost(entries[..kept], count)
    ensures kept > 0 ==> spent + cost <= budget
    ensures kept == |entries| || spent + headCost + EntriesCost(entries[..kept + 1], count) > budget
  {
    kept, cost := 0, headCost;
    for position := 0 to |entries|
      invariant kept == position && cost == headCost + EntriesCost(entries[..position], count)
      invariant position > 0 ==> spent + cost <= budget
    {
      var entryCost := count(entries[position]);
      assert entries[..position + 1][..position] == entries[..position];
      if spent + cost + entryCost > budget {
        return;
      }
      kept := kept + 1;
      cost := cost + entryCost;
    }
  }

  /** The lines of a cut: kept and dropped make up all entries, and the note is there exactly when
      something was dropped. */
  ghost function Shown(blocks: seq<Block>, kept: seq<nat>, maxTokens: int, note: (nat, int) -> Text): seq<Text>
    requires IsCut(blocks, kept)
  {
    var dropped := Total(blocks) - Sum(kept);
    Render(blocks, kept) + if dropped > 0 then [note(dropped, maxTokens)] else []
  }

  /** Where each block stands among the lines, and how many entries were left out before it. */
  ghost predicate LaidOut(blocks: seq<Block>, kept: seq<nat>, lines: seq<Text>, at: seq<nat>, left: seq<nat>)
    requires IsCut(blocks, kept)
  {
    && |at| == |left| == |blocks| + 1 && at[0] == left[0] == 0 && at[|blocks|] == |lines|
    && forall b: nat :: b < |blocks| ==> BlockLaid(blocks[b], kept[b], lines, at[b], at[b + 1], left[b], left[b + 1])
  }

  /** A block that keeps nothing takes no line. Any other takes a blank line, unless it is the first to be
      shown, then its header, then its first entries. */
  ghost predicate BlockLaid(block: Block, k: nat, lines: seq<Text>, from: nat, to: nat, left: nat, left': nat) {
    && k <= |block.entries| && left' == left + (|block.entries| - k) && from <= to <= |lines|
    && if k == 0 then to == from
       else
         var head := if from == 0 then 0 else from + 1;
         && to == head + 1 + k && (from > 0 ==> lines[from] == Text(""))
         && lines[head] == block.header && lines[head + 1..to] == block.entries[..k]
  }

  lemma {:induction false} RenderLaysOut(blocks: seq<Block>, kept: seq<nat>) returns (at: seq<nat>, left: seq<nat>)
    requires IsCut(blocks, kept)
    ensures LaidOut(blocks, kept, Render(blocks, kept), at, left)
    ensures left[|blocks|] + Sum(kept) == Total(blocks)
  {
    if blocks == [] {
      at, left := [0], [0];
    } else {
      hide *;
      var n := |blocks| - 1;
      FrontIsCut(blocks, kept);
      var at', left' := RenderLaysOut(blocks[..n], kept[..n]);
      at, left := LastLaidOut(blocks, kept, at', left');
    }
  }

  lemma FrontIsCut(blocks: seq<Block>, kept: seq<nat>)
    requires IsCut(blocks, kept) && blocks != []
    ensures |kept| == |blocks| && IsCut(blocks[..|blocks| - 1], kept[..|blocks| - 1])
  {
  }

  lemma LastLaidOut(blocks: seq<Block>, kept: seq<nat>, at': seq<nat>, left': seq<nat>) returns (at: seq<nat>, left: seq<nat>)
    requires IsCut(blocks, kept) && blocks != [] && IsCut(blocks[..|blocks| - 1], kept[..|blocks| - 1])
    requires LaidOut(blocks[..|blocks| - 1], kept[..|blocks| - 1], Render(blocks[..|blocks| - 1], kept[..|blocks| - 1]), at', left')
    requires left'[|blocks| - 1] + Sum(kept[..|blocks| - 1]) == Total(blocks[..|blocks| - 1])
    ensures LaidOut(blocks, kept, Render(blocks, kept), at, left) && left[|blocks|] + Sum(kept) == Total(blocks)
  {
    hide BlockLaid, Render;
    var n, lines := |blocks| - 1, Render(blocks, kept);
    at, left := at' + [|lines|], left' + [left'[n] + (|blocks[n].entries| - kept[n])];
    LastLaid(blocks, kept, left'[n]);
    forall b: nat | b < n ensures BlockLaid(blocks[b], kept[b], lines, at[b], at[b + 1], left[b], left[b + 1]) {
      assert blocks[..n][b] == blocks[b] && kept[..n][b] == kept[b];
      StillLaid(blocks[b], kept[b], Render(blocks[..n], kept[..n]), lines, at[b], at[b + 1], left[b], left[b + 1]);
    }
  }

  lemma StillLaid(block: Block, k: nat, before: seq<Text>, lines: seq<Text>, from: nat, to: nat, left: nat, left': nat)
    requires BlockLaid(block, k, before, from, to, left, left') && before <= lines
    ensures BlockLaid(block, k, lines, from, to, left, left')
  {
    assert before == lines[..|before|];
  }

  lemma LastLaid(blocks: seq<Block>, kept: seq<nat>, left: nat)
    requires IsCut(blocks, kept) && blocks != []
    ensures var n, lines := |blocks| - 1, Render(blocks, kept);
      && Render(blocks[..n], kept[..n]) <= lines
      && BlockLaid(blocks[n], kept[n], lines, |Render(blocks[..n], kept[..n])|, |lines|, left, left + (|blocks[n].entries| - kept[n]))
  {
  }

  lemma {:induction false} EntriesCostConcat(xs: seq<Text>, ys: seq<Text>, count: Counter)
    ensures EntriesCost(xs + ys, count) == EntriesCost(xs, count) + EntriesCost(ys, count)
  {
    if ys == [] {
      assert xs + ys == xs;
    } else {
      EntriesCostConcat(xs, ys[..|ys| - 1], count);
      assert (xs + ys)[..|xs + ys| - 1] == xs + ys[..|ys| - 1];
    }
  }

  /** Where a blank line costs one token, the cost is the sum of what the lines cost. */
  lemma {:induction false} CostIsOfLines(blocks: seq<Block>, kept: seq<nat>, count: Counter)
    requires IsCut(blocks, kept) && count(Text("")) == 1
    ensures Cost(blocks, kept, count) == EntriesCost(Render(blocks, kept), count)
  {
    if blocks != [] {
      var n := |blocks| - 1;
      CostIsOfLines(blocks[..n], kept[..n], count);
      if kept[n] > 0 {
        var before, entries := Render(blocks[..n], kept[..n]), blocks[n].entries[..kept[n]];
        var start := if before == [] then [] else before + [Text("")];
        EntriesCostConcat(before, [Text("")], count);
        EntriesCostConcat(start, [blocks[n].header], count);
        EntriesCostConcat(start + [blocks[n].header], entries, count);
        assert EntriesCost([Text("")], count) == 1 && EntriesCost([blocks[n].header], count) == count(blocks[n].header);
      }
    }
  }

  /** The lines are those of the cut, and after them the number of entries left out, if there are any;
      with a note of at most 24 tokens they all fit. */
  ghost predicate IsLaidBrief(blocks: seq<Block>, kept: seq<nat>, maxTokens: int, count: Counter, note: (nat, int) -> Text,
                              lines: seq<Text>)
    requires IsCut(blocks, kept)
  {
    exists shown, at, left ::
      && LaidOut(blocks, kept, shown, at, left)
      && lines == (if left[|blocks|] == 0 then shown else shown + [note(left[|blocks|], maxTokens)])
      && (maxTokens >= 24 && count(Text("")) == 1 && (left[|blocks|] > 0 ==> count(note(left[|blocks|], maxTokens)) <= 24)
          ==> EntriesCost(lines, count) <= maxTokens)
  }

  lemma CutIsLaidOut(blocks: seq<Block>, kept: seq<nat>, maxTokens: int, count: Counter, note: (nat, int) -> Text)
    requires IsCut(blocks, kept) && Fits(blocks, kept, maxTokens, count)
    ensures Sum(kept) <= Total(blocks)
    ensures IsLaidBrief(blocks, kept, maxTokens, count, note, Shown(blocks, kept, maxTokens, note))
  {
    hide FullCut, Cost, Total, Sum, Render, BlockLaid;
    KeepsNoMore(blocks, kept);
    var at, left := RenderLaysOut(blocks, kept);
    var shown, dropped := Render(blocks, kept), left[|blocks|];
    if count(Text("")) == 1 {
      CostIsOfLines(blocks, kept, count);
      EntriesCostConcat(shown, [note(dropped, maxTokens)], count);
      assert EntriesCost([note(dropped, maxTokens)], count) == count(note(dropped, maxTokens));
    }
    assert LaidOut(blocks, kept, shown, at, left);
  }

  ghost predicate Fits(blocks: seq<Block>, kept: seq<nat>, maxTokens: int, count: Counter)
    requires IsCut(blocks, kept)
  {
    && (maxTokens >= 24 ==> Cost(blocks, kept, count) <= maxTokens - 24)
    && FullCut(blocks, kept, maxTokens - 24, count)
  }

  /** Some cut fits the budget, drops nothing that would have fitted, and these are its lines. */
  ghost predicate IsBrief(blocks: seq<Block>, maxTokens: int, count: Counter, note: (nat, int) -> Text, lines: seq<Text>) {
    exists kept: seq<nat> :: IsCut(blocks, kept) && Fits(blocks, kept, maxTokens, count)
      && Sum(kept) <= Total(blocks) && lines == Shown(blocks, kept, maxTokens, note)
      && IsLaidBrief(blocks, kept, maxTokens, count, note, lines)
  }

  lemma {:induction false} KeepsNoMore(blocks: seq<Block>, kept: seq<nat>)
    requires IsCut(blocks, kept)
    ensures Sum(kept) <= Total(blocks)
  {
    if blocks != [] {
      KeepsNoMore(blocks[..|blocks| - 1], kept[..|blocks| - 1]);
    }
  }

  /** Kept entries are a prefix of each block, no header stands over nothing, the note is there exactly
      when something was left out and says how much, nothing was left out that would have fitted beside a
      reserve of 24 tokens, and with a note no longer than that all lines fit. */
  method Fit(blocks: seq<Block>, maxTokens: int, count: Counter, note: (nat, int) -> Text) returns (lines: seq<Text>)
    ensures IsBrief(blocks, maxTokens, count, note, lines)
  {
    hide CutWhereFull, FullCut, IsCut, Render, Cost, Total, Sum, EntriesCost, IsLaidBrief;
    var budget := maxTokens - NOTE_RESERVE;
    lines := [];
    ghost var kept: seq<nat> := [];
    var spent: int, dropped: nat := 0, 0;
    NothingShown(blocks, budget, count);
    for n := 0 to |blocks|
      invariant IsCut(blocks[..n], kept) && FullCut(blocks[..n], kept, budget, count)
      invariant lines == Render(blocks[..n], kept) && spent == Cost(blocks[..n], kept, count)
      invariant dropped + Sum(kept) == Total(blocks[..n])
      invariant budget >= 0 ==> spent <= budget
    {
      var entries := blocks[n].entries;
      var separator := if lines != [] then 1 else 0;
      var k, cost := KeepEntries(entries, spent, count(blocks[n].header) + separator, budget, count);
      CutGrows(blocks, kept, n, k, count);
      FullCutGrows(blocks, kept, n, k, budget, count);
      dropped := dropped + (|entries| - k);
      kept := kept + [k];
      if k > 0 {
        lines := (if separator > 0 then lines + [Text("")] else []) + [blocks[n].header] + entries[..k];
        spent := spent + cost;
      }
    }
    assert blocks[..|blocks|] == blocks;
    assert Fits(blocks, kept, maxTokens, count);
    if dropped > 0 {
      lines := lines + [note(dropped, maxTokens)];
    }
    assert lines == Shown(blocks, kept, maxTokens, note);
    CutIsLaidOut(blocks, kept, maxTokens, count, note);
  }

  lemma NothingShown(blocks: seq<Block>, budget: int, count: Counter)
    ensures IsCut(blocks[..0], []) && FullCut(blocks[..0], [], budget, count)
    ensures Render(blocks[..0], []) == [] && Cost(blocks[..0], [], count) == 0
    ensures Sum([]) == 0 == Total(blocks[..0])
  {
  }
}
