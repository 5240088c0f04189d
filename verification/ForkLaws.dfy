/** The stored lineage and the exact answer of fork detection. */
module ForkLaws {
  import opened Prelude
  import opened Blocks
  import opened Watcher

  /** The cursor is on a stored block, and every canonical row is that block or an ancestor of it. */
  ghost predicate Lineage(s: Store) {
    && s.cursor.Some? && s.cursor.value.hash.Some?
    && Tip(s).Height() == s.cursor.value.height
    && Tip(s).Height() in s.canonical
    && forall h :: h in s.canonical ==> HeaderAt(Tip(s), h) == Some(s.canonical[h])
  }

  function Tip(s: Store): Block
    requires s.cursor.Some? && s.cursor.value.hash.Some?
  {
    s.cursor.value.hash.value
  }

  /** The bottom of the unbroken run of stored blocks below `h`. */
  function Lowest(canonical: map<nat, Block>, h: nat): (low: nat)
    requires h in canonical
    ensures low <= h && forall k :: low <= k <= h ==> k in canonical
    ensures low > 0 ==> low - 1 !in canonical
  {
    if h > 0 && h - 1 in canonical then Lowest(canonical, h - 1) else h
  }

  function LowestStored(s: Store): nat
    requires s.cursor.Some? && s.cursor.value.height in s.canonical
  {
    Lowest(s.canonical, s.cursor.value.height)
  }

  /** Exactly one canonical block per height up to the cursor, parent-linked, and nothing above it. */
  lemma LineageIsAChain(s: Store, h: nat)
    requires Lineage(s)
    ensures h in s.canonical ==> h <= s.cursor.value.height && s.canonical[h].Height() == h
    ensures LowestStored(s) <= h < s.cursor.value.height ==>
      && h in s.canonical && h + 1 in s.canonical
      && s.canonical[h + 1].Block? && s.canonical[h + 1].parent == s.canonical[h]
  {
    if LowestStored(s) <= h < s.cursor.value.height {
      ParentLinked(Tip(s), h);
    }
  }

  /** What is stored at or below the fork is on the chain, and what is stored above it is not. */
  lemma ForkSplitsTheStore(s: Store, head: Block, f: nat, h: nat)
    requires Lineage(s) && IsFork(Tip(s), head, f) && h in s.canonical
    ensures OnChain(head, s.canonical[h]) <==> h <= f
  {
    if h <= f {
      AgreementIsDownwardClosed(Tip(s), head, f, h);
    } else {
      assert !AgreeAt(Tip(s), head, h);
    }
  }

  function Max(x: nat, y: nat): nat { if x >= y then x else y }

  /** The walk-back from a height whose stored blocks above the fork all disagree with the chain. */
  lemma {:induction false} WalkBackExact(s: Store, head: Block, f: nat, height: nat, floor: nat)
    requires Lineage(s) && IsFork(Tip(s), head, f)
    requires f < height <= s.cursor.value.height && LowestStored(s) <= height && floor <= height
    ensures WalkBack(s.canonical, head, height, floor) ==
      if f >= LowestStored(s) && f >= floor then Ok(Some(f))
      else if floor >= LowestStored(s) then Err(Internal)
      else Ok(Some((LowestStored(s) - 1) as nat))
  {
    if height > floor && height - 1 in s.canonical {
      ForkSplitsTheStore(s, head, f, height - 1);
      assert LowestStored(s) <= height - 1 by { LowestIsLow(s.canonical, s.cursor.value.height, height); }
      if height - 1 > f {
        WalkBackExact(s, head, f, height - 1, floor);
      }
    }
  }

  lemma {:induction false} LowestIsLow(canonical: map<nat, Block>, top: nat, height: nat)
    requires top in canonical && 0 < height <= top && Lowest(canonical, top) <= height && height - 1 in canonical
    ensures Lowest(canonical, top) <= height - 1
  {}

  /**
   * `detect` for every chain: no reorg exactly when the chain is behind the cursor or its block there
   * is the stored one; otherwise the fork height itself when it lies in the stored window; an error
   * when the whole scan window is stored and the fork is deeper; and, when storage ends inside the
   * window above the fork, the height just below what is stored.
   */
  lemma DetectExact(s: Store, head: Block, depth: nat, f: nat)
    requires Lineage(s) && IsFork(Tip(s), head, f)
    ensures var tip, low, floor := s.cursor.value.height, LowestStored(s), Floor(s.cursor.value.height, depth);
      && (f == tip <==> HeaderAt(head, tip) == Some(Tip(s)))
      && Detect(s, head, depth) ==
           if tip > head.Height() || f == tip then Ok(None)
           else if f >= low && f >= floor then Ok(Some(f))
           else if floor >= low then Err(Internal)
           else Ok(Some((low - 1) as nat))
  {
    var tip := s.cursor.value.height;
    assert HeaderAt(Tip(s), tip) == Some(Tip(s));
    assert f <= tip;
    if f == tip {
      assert AgreeAt(Tip(s), head, tip);
    } else {
      assert !AgreeAt(Tip(s), head, tip);
      if tip <= head.Height() {
        WalkBackExact(s, head, f, tip, Floor(tip, depth));
      }
    }
  }

  // ------------------------------------------------------------ find_common_ancestor ---

  /** (height, hash) pairs of a chain, highest first. */
  function Pairs(b: Block, low: nat, high: nat): seq<(nat, Block)>
    requires high <= b.Height()
    decreases high
  {
    if high < low then []
    else [(high, HeaderAt(b, high).value)] + if high == 0 then [] else Pairs(b, low, high - 1)
  }

  lemma {:induction false} ChainAtPairs(b: Block, low: nat, high: nat, h: nat)
    requires high <= b.Height()
    ensures ChainAt(Pairs(b, low, high), h) == if low <= h <= high then HeaderAt(b, h) else None
    decreases high
  {
    var ps := Pairs(b, low, high);
    if high >= low {
      if high == 0 {
        assert ps == [(high, HeaderAt(b, high).value)];
      } else {
        ChainAtPairs(b, low, high - 1, h);
        ChainAtFirst((high, HeaderAt(b, high).value), Pairs(b, low, high - 1), h);
      }
    }
  }

  lemma {:induction false} ChainAtFirst(p: (nat, Block), rest: seq<(nat, Block)>, h: nat)
    ensures ChainAt([p] + rest, h)
         == if ChainAt(rest, h).Some? then ChainAt(rest, h) else if p.0 == h then Some(p.1) else None
  {
    if rest == [] {
      assert [p] + rest == [p];
    } else {
      var all := [p] + rest;
      assert all[..|all| - 1] == [p] + rest[..|rest| - 1];
      ChainAtFirst(p, rest[..|rest| - 1], h);
    }
  }

  /**
   * The pure search over two windows of (height, hash) pairs finds the fork, or nothing when it is
   * below the window.
   */
  lemma {:induction false} SearchExact(x: Block, y: Block, low: nat, high: nat, top: nat, f: nat)
    requires IsFork(x, y, f) && f <= high <= x.Height() && f <= top <= y.Height()
    ensures FindCommonAncestor(Pairs(x, low, high), Pairs(y, low, top)) == if low <= f then Some(f) else None
    decreases high
  {
    if high >= low {
      var p, rest := (high, HeaderAt(x, high).value), if high == 0 then [] else Pairs(x, low, high - 1);
      assert Pairs(x, low, high) == [p] + rest;
      SearchFirst(p, rest, Pairs(y, low, top));
      ChainAtPairs(y, low, top, high);
      if high == f {
        assert AgreeAt(x, y, high);
      } else {
        assert !AgreeAt(x, y, high);
        SearchExact(x, y, low, high - 1, top, f);
      }
    }
  }

  lemma SearchFirst(p: (nat, Block), rest: seq<(nat, Block)>, chain: seq<(nat, Block)>)
    ensures FindCommonAncestor([p] + rest, chain)
         == if ChainAt(chain, p.0) == Some(p.1) then Some(p.0) else FindCommonAncestor(rest, chain)
  {
    assert ([p] + rest)[1..] == rest;
  }

  /** On the window `detect` walks, the pure search gives the same answer. */
  lemma DetectAgreesWithSearch(s: Store, head: Block, depth: nat, f: nat)
    requires Lineage(s) && s.cursor.value.height <= head.Height() && IsFork(Tip(s), head, f)
    requires f < s.cursor.value.height && LowestStored(s) <= Floor(s.cursor.value.height, depth)
    ensures var tip, floor := s.cursor.value.height, Floor(s.cursor.value.height, depth);
      Detect(s, head, depth) ==
        match FindCommonAncestor(Pairs(Tip(s), floor, tip), Pairs(head, floor, tip))
        case Some(h) => Ok(Some(h))
        case None => Err(Internal)
  {
    var tip, floor := s.cursor.value.height, Floor(s.cursor.value.height, depth);
    DetectExact(s, head, depth, f);
    SearchExact(Tip(s), head, floor, tip, tip, f);
  }
}
