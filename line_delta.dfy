/** Delta suppression of head lines: a column line is queued only when its encoding differs from
    the last queued one (`temp_line_history`). The head keeps firing the last line it received, so
    suppressing repeats loses nothing. */
module LineDelta {

  /** One head command before it is turned into text: a position in microns and a line. The head
      commands carry the line's encoded text; suppression only compares lines, so it is stated for
      any line type `L`. */
  datatype Burst<L> = Burst(pos: real, line: L)

  /** The encoded line in effect after `s`: the last one in `s`, or `h` when `s` is empty. */
  function LastLine<L>(s: seq<Burst<L>>, h: L): L {
    if s == [] then h else s[|s| - 1].line
  }

  /** The bursts kept from `items` when the history starts as `h`: an item is kept exactly when its
      line differs from the line of the item just before it (or from `h` for the first item). */
  function Delta<L(==)>(items: seq<Burst<L>>, h: L): seq<Burst<L>>
    decreases |items|
  {
    if items == [] then []
    else
      var init := items[..|items| - 1];
      var x := items[|items| - 1];
      Delta(init, h) + (if x.line != LastLine(init, h) then [x] else [])
  }

  /** The kept bursts are some of the items: never more of them, and nothing new. */
  lemma {:induction false} DeltaSubset<L>(items: seq<Burst<L>>, h: L)
    decreases |items|
    ensures var r := Delta(items, h);
      |r| <= |items| && forall x :: x in r ==> x in items
  {
    if items != [] {
      DeltaSubset(items[..|items| - 1], h);
    }
  }

  /** Nothing is lost: the line in effect after the kept bursts is the line of the last item. */
  lemma {:induction false} DeltaKeepsLastLine<L>(items: seq<Burst<L>>, h: L)
    decreases |items|
    ensures LastLine(Delta(items, h), h) == LastLine(items, h)
  {
    if items != [] {
      DeltaKeepsLastLine(items[..|items| - 1], h);
    }
  }

  /** No two consecutive kept bursts carry the same line, and the first differs from `h`. */
  lemma {:induction false} DeltaNoRepeats<L>(items: seq<Burst<L>>, h: L)
    decreases |items|
    ensures var d := Delta(items, h);
      (|d| > 0 ==> d[0].line != h) &&
      forall i :: 0 <= i < |d| - 1 ==> d[i].line != d[i + 1].line
  {
    if items != [] {
      var init := items[..|items| - 1];
      DeltaNoRepeats(init, h);
      DeltaKeepsLastLine(init, h);
    }
  }

  /** Delta over a prefix of the items is a prefix of the whole delta. */
  lemma {:induction false} DeltaPrefix<L>(items: seq<Burst<L>>, h: L, k: nat)
    requires k <= |items|
    decreases |items| - k
    ensures Delta(items[..k], h) <= Delta(items, h)
  {
    if k < |items| {
      DeltaPrefix(items[..|items| - 1], h, k);
      assert items[..|items| - 1][..k] == items[..k];
    } else {
      assert items[..k] == items;
    }
  }

  /** Replaying the kept bursts up to item `k`, the head holds exactly item `k`'s line. */
  lemma LineInEffect<L>(items: seq<Burst<L>>, h: L, k: nat)
    requires k < |items|
    ensures Delta(items[..k + 1], h) <= Delta(items, h)
    ensures LastLine(Delta(items[..k + 1], h), h) == items[k].line
  {
    DeltaPrefix(items, h, k + 1);
    DeltaKeepsLastLine(items[..k + 1], h);
  }

  /** Nothing is queued exactly when every item encodes like the history. */
  lemma {:induction false} DeltaEmptyIff<L>(items: seq<Burst<L>>, h: L)
    decreases |items|
    ensures Delta(items, h) == [] <==> forall i :: 0 <= i < |items| ==> items[i].line == h
  {
    if items != [] {
      var init := items[..|items| - 1];
      DeltaEmptyIff(init, h);
      if Delta(items, h) == [] {
        assert Delta(init, h) == [];
        DeltaKeepsLastLine(init, h);
        forall i | 0 <= i < |items| ensures items[i].line == h {
          if i < |items| - 1 {
            assert items[i] == init[i];
          }
        }
      }
      if forall i :: 0 <= i < |items| ==> items[i].line == h {
        forall i | 0 <= i < |init| ensures init[i].line == h {
          assert init[i] == items[i];
        }
        assert LastLine(init, h) == h;
        assert items[|items| - 1].line == h;
      }
    }
  }

  predicate Increasing<L>(s: seq<Burst<L>>) {
    forall i, j :: 0 <= i < j < |s| ==> s[i].pos < s[j].pos
  }

  /** Suppression keeps the items' order: increasing positions stay increasing. */
  lemma {:induction false} DeltaIncreasing<L>(items: seq<Burst<L>>, h: L)
    requires Increasing(items)
    decreases |items|
    ensures Increasing(Delta(items, h))
  {
    if items != [] {
      var init := items[..|items| - 1];
      var x := items[|items| - 1];
      DeltaIncreasing(init, h);
      DeltaSubset(init, h);
      var d := Delta(init, h);
      forall y | y in d ensures y.pos < x.pos {
        var j :| 0 <= j < |init| && init[j] == y;
        assert items[j] == y;
      }
    }
  }
}
