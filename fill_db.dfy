/** The database fill script: after a confirmation prompt it counts the
    block sets, expansion blocks and expansions of `expansions.json`, empties
    the block-set and card tables, and inserts the catalog level by level,
    handing every child row the id of the row just created for its parent.
    The catalog (a JSON object of block sets, each an object of expansion
    blocks, each a list of expansion names) is an ordered sequence here, in
    the order the JSON object lists its keys (the loaded object: a key the
    file repeats appears once, with its last value, where it first stood).
    The blocks of each set pass through a progress bar whose first redraw
    divides by their number, so the script dies right after inserting the
    row of the first set with no blocks. Functions over "the first `n`"
    sets, blocks or names describe the state after `n` iterations of the
    corresponding loop. */
module FillDb {
  import opened Text
  import opened CatalogStore

  /** An expansion block: its key and its list of expansion names. */
  datatype Block = Block(name: string, expansions: seq<string>)

  /** A block set: its key and its expansion blocks, in order. */
  datatype BlockSet = BlockSet(name: string, blocks: seq<Block>)

  type Catalog = seq<BlockSet>

  /** Whether the script goes on after the prompt: it stops only when the
      lower-cased answer is `n`. */
  function Proceeds(answer: string): bool {
    LowerString(answer) != "n"
  }

  /** Only the answers `n` and `N` stop the script; anything else, the empty
      answer included, goes on. */
  lemma ProceedsUnlessN(answer: string)
    ensures !Proceeds(answer) <==> answer == "n" || answer == "N"
  {
    if LowerString(answer) == "n" {
      assert |answer| == 1;
      assert LowerString(answer)[0] == Lower(answer[0]);
      assert answer == [answer[0]];
    }
  }

  // ---- The lists the script builds to count ----

  /** Every expansion block of the first `n` sets, set after set. */
  function BlocksBefore(c: Catalog, n: nat): seq<Block>
    requires n <= |c|
  {
    if n == 0 then [] else BlocksBefore(c, n - 1) + c[n - 1].blocks
  }

  /** Every expansion name of the first `n` blocks, block after block. */
  function NamesBefore(bs: seq<Block>, n: nat): seq<string>
    requires n <= |bs|
  {
    if n == 0 then [] else NamesBefore(bs, n - 1) + bs[n - 1].expansions
  }

  /** Every expansion name of the first `n` sets. */
  function ExpansionsBefore(c: Catalog, n: nat): seq<string>
    requires n <= |c|
  {
    if n == 0 then [] else ExpansionsBefore(c, n - 1) + NamesBefore(c[n - 1].blocks, |c[n - 1].blocks|)
  }

  /** `expansion_blocks_count`: the length of the list of all blocks. */
  function ExpansionBlocksCount(c: Catalog): nat {
    |BlocksBefore(c, |c|)|
  }

  /** `expansions_count`: the length of the list of all expansions. */
  function ExpansionsCount(c: Catalog): nat {
    |ExpansionsBefore(c, |c|)|
  }

  /** Independent reading of the counts: sums over the sets and blocks. */
  function BlockSum(c: Catalog): nat {
    if c == [] then 0 else |c[0].blocks| + BlockSum(c[1..])
  }

  function ExpansionSumOf(bs: seq<Block>): nat {
    if bs == [] then 0 else |bs[0].expansions| + ExpansionSumOf(bs[1..])
  }

  function ExpansionSum(c: Catalog): nat {
    if c == [] then 0 else ExpansionSumOf(c[0].blocks) + ExpansionSum(c[1..])
  }

  // ---- What the insert loops do, one call at a time ----

  /** The innermost loop after `n` names: each under `blockId`. */
  function ImportExpansions(t: Tables, names: seq<string>, blockId: nat, n: nat): Tables
    requires n <= |names|
  {
    if n == 0 then t
    else WithExpansion(ImportExpansions(t, names, blockId, n - 1), names[n - 1], blockId)
  }

  /** One expansion block: its row, then its expansions under the new row's id. */
  function ImportBlock(t: Tables, b: Block, setId: nat): Tables {
    ImportExpansions(WithExpansionBlock(t, b.name, setId), b.expansions, t.nextExpansionBlockId, |b.expansions|)
  }

  /** The middle loop after `n` blocks, all under `setId`. */
  function ImportBlocks(t: Tables, bs: seq<Block>, setId: nat, n: nat): Tables
    requires n <= |bs|
  {
    if n == 0 then t else ImportBlock(ImportBlocks(t, bs, setId, n - 1), bs[n - 1], setId)
  }

  /** One block set: its row, then its blocks under the new row's id. */
  function ImportSet(t: Tables, s: BlockSet): Tables {
    ImportBlocks(WithBlockSet(t, s.name), s.blocks, t.nextBlockSetId, |s.blocks|)
  }

  /** The outer loop after `n` sets. */
  function ImportCatalog(t: Tables, c: Catalog, n: nat): Tables
    requires n <= |c|
  {
    if n == 0 then t else ImportSet(ImportCatalog(t, c, n - 1), c[n - 1])
  }

  /** Whether every block set has at least one expansion block. */
  predicate Completes(c: Catalog) {
    forall i :: 0 <= i < |c| ==> c[i].blocks != []
  }

  /** The position of the first block set with no expansion blocks, or `|c|`
      when there is none. */
  function FirstEmptySet(c: Catalog): (e: nat)
    ensures e <= |c|
    ensures forall i :: 0 <= i < e ==> c[i].blocks != []
    ensures e < |c| ==> c[e].blocks == []
    ensures e == |c| <==> Completes(c)
  {
    if c == [] || c[0].blocks == [] then 0
    else
      var e' := FirstEmptySet(c[1..]);
      assert forall i :: 1 <= i < |c| ==> c[i] == c[1..][i - 1];
      1 + e'
  }

  /** How many block-set rows the outer loop inserts: all of them, or those
      up to and including the first set with no blocks, on which the script
      dies. */
  function ImportedCount(c: Catalog): nat {
    var e := FirstEmptySet(c);
    if e < |c| then e + 1 else |c|
  }

  /** The whole run once the prompt is passed: both resets, then the import
      as far as it gets. */
  function Fill(t: Tables, c: Catalog): Tables {
    ImportCatalog(DeleteCards(DeleteBlockSets(t)), c, ImportedCount(c))
  }

  // ---- The rows the import is meant to produce ----

  /** Rows for the first `n` names, ids counted up from `x0`, all under `blockId`. */
  function NameRows(names: seq<string>, x0: nat, blockId: nat, n: nat): seq<ExpansionRow>
    requires n <= |names|
  {
    if n == 0 then []
    else NameRows(names, x0, blockId, n - 1) + [ExpansionRow(x0 + n - 1, names[n - 1], blockId)]
  }

  /** Rows for the first `n` blocks, ids counted up from `e0`, all under `setId`. */
  function BlockListRows(bs: seq<Block>, e0: nat, setId: nat, n: nat): seq<ExpansionBlockRow>
    requires n <= |bs|
  {
    if n == 0 then []
    else BlockListRows(bs, e0, setId, n - 1) + [ExpansionBlockRow(e0 + n - 1, bs[n - 1].name, setId)]
  }

  /** One block-set row per key of the first `n` sets, ids counted up from `s0`. */
  function SetRows(c: Catalog, s0: nat, n: nat): seq<BlockSetRow>
    requires n <= |c|
  {
    if n == 0 then []
    else SetRows(c, s0, n - 1) + [BlockSetRow(s0 + n - 1, c[n - 1].name)]
  }

  /** One row per expansion of the first `n` blocks, each under the id
      `e0 + j` of its own block `j`, ids counted up from `x0`. */
  function ExpansionRowsOf(bs: seq<Block>, e0: nat, x0: nat, n: nat): seq<ExpansionRow>
    requires n <= |bs|
  {
    if n == 0 then []
    else
      ExpansionRowsOf(bs, e0, x0, n - 1) +
      NameRows(bs[n - 1].expansions, x0 + |NamesBefore(bs, n - 1)|, e0 + n - 1, |bs[n - 1].expansions|)
  }

  /** One row per block of the first `n` sets, each under the id `s0 + i` of
      its own set `i`, ids counted up from `e0`. */
  function BlockRows(c: Catalog, s0: nat, e0: nat, n: nat): seq<ExpansionBlockRow>
    requires n <= |c|
  {
    if n == 0 then []
    else
      BlockRows(c, s0, e0, n - 1) +
      BlockListRows(c[n - 1].blocks, e0 + |BlocksBefore(c, n - 1)|, s0 + n - 1, |c[n - 1].blocks|)
  }

  /** One row per expansion of the first `n` sets, each under the id of its own block. */
  function ExpansionRows(c: Catalog, e0: nat, x0: nat, n: nat): seq<ExpansionRow>
    requires n <= |c|
  {
    if n == 0 then []
    else
      ExpansionRows(c, e0, x0, n - 1) +
      ExpansionRowsOf(c[n - 1].blocks, e0 + |BlocksBefore(c, n - 1)|, x0 + |ExpansionsBefore(c, n - 1)|,
                      |c[n - 1].blocks|)
  }

  // ---- The import adds exactly the rows above ----

  lemma {:induction false} NameRowsLength(names: seq<string>, x0: nat, blockId: nat, n: nat)
    requires n <= |names|
    ensures |NameRows(names, x0, blockId, n)| == n
  {
    if n > 0 {
      NameRowsLength(names, x0, blockId, n - 1);
    }
  }

  lemma {:induction false} BlockListRowsLength(bs: seq<Block>, e0: nat, setId: nat, n: nat)
    requires n <= |bs|
    ensures |BlockListRows(bs, e0, setId, n)| == n
  {
    if n > 0 {
      BlockListRowsLength(bs, e0, setId, n - 1);
    }
  }

  lemma {:induction false} SetRowsLength(c: Catalog, s0: nat, n: nat)
    requires n <= |c|
    ensures |SetRows(c, s0, n)| == n
  {
    if n > 0 {
      SetRowsLength(c, s0, n - 1);
    }
  }

  /** Row `m` of the first `n` names: the `m`-th fresh id, the `m`-th name. */
  lemma {:induction false} NameRowAt(names: seq<string>, x0: nat, blockId: nat, n: nat, m: nat)
    requires m < n <= |names|
    ensures |NameRows(names, x0, blockId, n)| == n
    ensures NameRows(names, x0, blockId, n)[m] == ExpansionRow(x0 + m, names[m], blockId)
  {
    if m < n - 1 {
      NameRowAt(names, x0, blockId, n - 1, m);
    } else if n > 1 {
      NameRowAt(names, x0, blockId, n - 1, 0);
    }
  }

  /** Row `j` of the first `n` blocks of a set. */
  lemma {:induction false} BlockListRowAt(bs: seq<Block>, e0: nat, setId: nat, n: nat, j: nat)
    requires j < n <= |bs|
    ensures |BlockListRows(bs, e0, setId, n)| == n
    ensures BlockListRows(bs, e0, setId, n)[j] == ExpansionBlockRow(e0 + j, bs[j].name, setId)
  {
    if j < n - 1 {
      BlockListRowAt(bs, e0, setId, n - 1, j);
    } else if n > 1 {
      BlockListRowAt(bs, e0, setId, n - 1, 0);
    }
  }

  /** Row `i` of the first `n` sets: the `i`-th fresh id and the `i`-th key. */
  lemma {:induction false} SetRowAt(c: Catalog, s0: nat, n: nat, i: nat)
    requires i < n <= |c|
    ensures |SetRows(c, s0, n)| == n
    ensures SetRows(c, s0, n)[i] == BlockSetRow(s0 + i, c[i].name)
  {
    if i < n - 1 {
      SetRowAt(c, s0, n - 1, i);
    } else if n > 1 {
      SetRowAt(c, s0, n - 1, 0);
    }
  }

  /** The first `n` expansions of one block are appended in order, with
      consecutive fresh ids, all under `blockId`; nothing else changes. */
  lemma {:induction false} ImportExpansionsShape(t: Tables, names: seq<string>, blockId: nat, n: nat)
    requires n <= |names|
    ensures ImportExpansions(t, names, blockId, n).expansions ==
      t.expansions + NameRows(names, t.nextExpansionId, blockId, n)
    ensures ImportExpansions(t, names, blockId, n).nextExpansionId == t.nextExpansionId + n
    ensures ImportExpansions(t, names, blockId, n).blockSets == t.blockSets
    ensures ImportExpansions(t, names, blockId, n).expansionBlocks == t.expansionBlocks
    ensures ImportExpansions(t, names, blockId, n).cards == t.cards
    ensures ImportExpansions(t, names, blockId, n).nextBlockSetId == t.nextBlockSetId
    ensures ImportExpansions(t, names, blockId, n).nextExpansionBlockId == t.nextExpansionBlockId
  {
    if n > 0 {
      ImportExpansionsShape(t, names, blockId, n - 1);
    }
  }

  /** The first `n` blocks of one set are appended in order under `setId`,
      and each block's expansions follow under that block's own new id. */
  lemma {:induction false} ImportBlocksShape(t: Tables, bs: seq<Block>, setId: nat, n: nat)
    requires n <= |bs|
    ensures ImportBlocks(t, bs, setId, n).expansionBlocks ==
      t.expansionBlocks + BlockListRows(bs, t.nextExpansionBlockId, setId, n)
    ensures ImportBlocks(t, bs, setId, n).expansions ==
      t.expansions + ExpansionRowsOf(bs, t.nextExpansionBlockId, t.nextExpansionId, n)
    ensures ImportBlocks(t, bs, setId, n).blockSets == t.blockSets
    ensures ImportBlocks(t, bs, setId, n).cards == t.cards
    ensures ImportBlocks(t, bs, setId, n).nextBlockSetId == t.nextBlockSetId
    ensures ImportBlocks(t, bs, setId, n).nextExpansionBlockId == t.nextExpansionBlockId + n
    ensures ImportBlocks(t, bs, setId, n).nextExpansionId == t.nextExpansionId + |NamesBefore(bs, n)|
  {
    if n > 0 {
      ImportBlocksShape(t, bs, setId, n - 1);
      var u := ImportBlocks(t, bs, setId, n - 1);
      var w := WithExpansionBlock(u, bs[n - 1].name, setId);
      ImportExpansionsShape(w, bs[n - 1].expansions, u.nextExpansionBlockId, |bs[n - 1].expansions|);
    }
  }

  /** One block set: its row, then its blocks under the new row's id. */
  lemma ImportSetShape(u: Tables, st: BlockSet)
    ensures ImportSet(u, st).blockSets == u.blockSets + [BlockSetRow(u.nextBlockSetId, st.name)]
    ensures ImportSet(u, st).expansionBlocks ==
      u.expansionBlocks + BlockListRows(st.blocks, u.nextExpansionBlockId, u.nextBlockSetId, |st.blocks|)
    ensures ImportSet(u, st).expansions ==
      u.expansions + ExpansionRowsOf(st.blocks, u.nextExpansionBlockId, u.nextExpansionId, |st.blocks|)
    ensures ImportSet(u, st).cards == u.cards
    ensures ImportSet(u, st).nextBlockSetId == u.nextBlockSetId + 1
    ensures ImportSet(u, st).nextExpansionBlockId == u.nextExpansionBlockId + |st.blocks|
    ensures ImportSet(u, st).nextExpansionId == u.nextExpansionId + |NamesBefore(st.blocks, |st.blocks|)|
  {
    ImportBlocksShape(WithBlockSet(u, st.name), st.blocks, u.nextBlockSetId, |st.blocks|);
  }

  /** The first `n` sets advance the three id counters by the numbers of
      sets, blocks and expansions they hold, and leave the cards alone. */
  lemma {:induction false} ImportCatalogCounters(t: Tables, c: Catalog, n: nat)
    requires n <= |c|
    ensures ImportCatalog(t, c, n).cards == t.cards
    ensures ImportCatalog(t, c, n).nextBlockSetId == t.nextBlockSetId + n
    ensures ImportCatalog(t, c, n).nextExpansionBlockId == t.nextExpansionBlockId + |BlocksBefore(c, n)|
    ensures ImportCatalog(t, c, n).nextExpansionId == t.nextExpansionId + |ExpansionsBefore(c, n)|
  {
    if n > 0 {
      ImportCatalogCounters(t, c, n - 1);
      ImportSetShape(ImportCatalog(t, c, n - 1), c[n - 1]);
    }
  }

  /** The first `n` sets append one block-set row per key, in order. */
  lemma {:induction false} ImportCatalogSets(t: Tables, c: Catalog, n: nat)
    requires n <= |c|
    ensures ImportCatalog(t, c, n).blockSets == t.blockSets + SetRows(c, t.nextBlockSetId, n)
  {
    if n > 0 {
      ImportCatalogSets(t, c, n - 1);
      ImportCatalogCounters(t, c, n - 1);
      var u := ImportCatalog(t, c, n - 1);
      ImportSetShape(u, c[n - 1]);
    }
  }

  /** One more set extends `BlockRows` by that set's blocks, under the id
      the set's row received. */
  lemma BlocksStep(t: Tables, c: Catalog, n: nat, u: Tables, v: Tables)
    requires 0 < n <= |c|
    requires u.expansionBlocks == t.expansionBlocks + BlockRows(c, t.nextBlockSetId, t.nextExpansionBlockId, n - 1)
    requires u.nextBlockSetId == t.nextBlockSetId + n - 1
    requires u.nextExpansionBlockId == t.nextExpansionBlockId + |BlocksBefore(c, n - 1)|
    requires v.expansionBlocks ==
      u.expansionBlocks + BlockListRows(c[n - 1].blocks, u.nextExpansionBlockId, u.nextBlockSetId, |c[n - 1].blocks|)
    ensures v.expansionBlocks == t.expansionBlocks + BlockRows(c, t.nextBlockSetId, t.nextExpansionBlockId, n)
  {
  }

  /** One more set extends `ExpansionRows` by that set's expansions, each
      under the id its own block's row received. */
  lemma ExpansionsStep(t: Tables, c: Catalog, n: nat, u: Tables, v: Tables)
    requires 0 < n <= |c|
    requires u.expansions == t.expansions + ExpansionRows(c, t.nextExpansionBlockId, t.nextExpansionId, n - 1)
    requires u.nextExpansionBlockId == t.nextExpansionBlockId + |BlocksBefore(c, n - 1)|
    requires u.nextExpansionId == t.nextExpansionId + |ExpansionsBefore(c, n - 1)|
    requires v.expansions ==
      u.expansions + ExpansionRowsOf(c[n - 1].blocks, u.nextExpansionBlockId, u.nextExpansionId, |c[n - 1].blocks|)
    ensures v.expansions == t.expansions + ExpansionRows(c, t.nextExpansionBlockId, t.nextExpansionId, n)
  {
  }

  /** The first `n` sets append exactly `BlockRows`. */
  lemma {:induction false} ImportCatalogBlocks(t: Tables, c: Catalog, n: nat)
    requires n <= |c|
    ensures ImportCatalog(t, c, n).expansionBlocks ==
      t.expansionBlocks + BlockRows(c, t.nextBlockSetId, t.nextExpansionBlockId, n)
  {
    if n > 0 {
      ImportCatalogBlocks(t, c, n - 1);
      ImportCatalogCounters(t, c, n - 1);
      var u := ImportCatalog(t, c, n - 1);
      ImportSetShape(u, c[n - 1]);
      BlocksStep(t, c, n, u, ImportSet(u, c[n - 1]));
    }
  }

  /** The first `n` sets append exactly `ExpansionRows`. */
  lemma {:induction false} ImportCatalogExpansions(t: Tables, c: Catalog, n: nat)
    requires n <= |c|
    ensures ImportCatalog(t, c, n).expansions ==
      t.expansions + ExpansionRows(c, t.nextExpansionBlockId, t.nextExpansionId, n)
  {
    if n > 0 {
      ImportCatalogExpansions(t, c, n - 1);
      ImportCatalogCounters(t, c, n - 1);
      var u := ImportCatalog(t, c, n - 1);
      ImportSetShape(u, c[n - 1]);
      ExpansionsStep(t, c, n, u, ImportSet(u, c[n - 1]));
    }
  }

  // ---- Counts, positions and parents of the imported rows ----

  lemma {:induction false} BlockRowsLength(c: Catalog, s0: nat, e0: nat, n: nat)
    requires n <= |c|
    ensures |BlockRows(c, s0, e0, n)| == |BlocksBefore(c, n)|
  {
    if n > 0 {
      BlockRowsLength(c, s0, e0, n - 1);
      BlockListRowsLength(c[n - 1].blocks, e0 + |BlocksBefore(c, n - 1)|, s0 + n - 1, |c[n - 1].blocks|);
    }
  }

  lemma {:induction false} ExpansionRowsOfLength(bs: seq<Block>, e0: nat, x0: nat, n: nat)
    requires n <= |bs|
    ensures |ExpansionRowsOf(bs, e0, x0, n)| == |NamesBefore(bs, n)|
  {
    if n > 0 {
      ExpansionRowsOfLength(bs, e0, x0, n - 1);
      NameRowsLength(bs[n - 1].expansions, x0 + |NamesBefore(bs, n - 1)|, e0 + n - 1, |bs[n - 1].expansions|);
    }
  }

  lemma {:induction false} ExpansionRowsLength(c: Catalog, e0: nat, x0: nat, n: nat)
    requires n <= |c|
    ensures |ExpansionRows(c, e0, x0, n)| == |ExpansionsBefore(c, n)|
  {
    if n > 0 {
      ExpansionRowsLength(c, e0, x0, n - 1);
      ExpansionRowsOfLength(c[n - 1].blocks, e0 + |BlocksBefore(c, n - 1)|,
        x0 + |ExpansionsBefore(c, n - 1)|, |c[n - 1].blocks|);
    }
  }

  /** Block `j` of set `i` gets the row right after the blocks of the earlier
      sets and earlier siblings, with the matching fresh id, its own name,
      and the id `s0 + i` of the row of its own set. */
  lemma {:induction false} BlockRowAt(c: Catalog, s0: nat, e0: nat, n: nat, i: nat, j: nat)
    requires i < n <= |c| && j < |c[i].blocks|
    ensures |BlocksBefore(c, i)| + j < |BlockRows(c, s0, e0, n)|
    ensures BlockRows(c, s0, e0, n)[|BlocksBefore(c, i)| + j] ==
      ExpansionBlockRow(e0 + |BlocksBefore(c, i)| + j, c[i].blocks[j].name, s0 + i)
  {
    var pre := BlockRows(c, s0, e0, n - 1);
    var bs := c[n - 1].blocks;
    var last := BlockListRows(bs, e0 + |BlocksBefore(c, n - 1)|, s0 + n - 1, |bs|);
    assert BlockRows(c, s0, e0, n) == pre + last;
    BlockRowsLength(c, s0, e0, n - 1);
    if i < n - 1 {
      BlockRowAt(c, s0, e0, n - 1, i, j);
      assert (pre + last)[|BlocksBefore(c, i)| + j] == pre[|BlocksBefore(c, i)| + j];
    } else {
      BlockListRowAt(bs, e0 + |BlocksBefore(c, i)|, s0 + i, |bs|, j);
      assert (pre + last)[|pre| + j] == last[j];
    }
  }

  lemma {:induction false} ExpansionRowOfAt(bs: seq<Block>, e0: nat, x0: nat, n: nat, j: nat, m: nat)
    requires j < n <= |bs| && m < |bs[j].expansions|
    ensures |NamesBefore(bs, j)| + m < |ExpansionRowsOf(bs, e0, x0, n)|
    ensures ExpansionRowsOf(bs, e0, x0, n)[|NamesBefore(bs, j)| + m] ==
      ExpansionRow(x0 + |NamesBefore(bs, j)| + m, bs[j].expansions[m], e0 + j)
  {
    var pre := ExpansionRowsOf(bs, e0, x0, n - 1);
    var names := bs[n - 1].expansions;
    var last := NameRows(names, x0 + |NamesBefore(bs, n - 1)|, e0 + n - 1, |names|);
    assert ExpansionRowsOf(bs, e0, x0, n) == pre + last;
    ExpansionRowsOfLength(bs, e0, x0, n - 1);
    if j < n - 1 {
      ExpansionRowOfAt(bs, e0, x0, n - 1, j, m);
      assert (pre + last)[|NamesBefore(bs, j)| + m] == pre[|NamesBefore(bs, j)| + m];
    } else {
      NameRowAt(names, x0 + |NamesBefore(bs, n - 1)|, e0 + n - 1, |names|, m);
      assert (pre + last)[|pre| + m] == last[m];
    }
  }

  /** The expansions of set `i` follow those of the earlier sets. */
  lemma ExpansionRowOfLastSet(c: Catalog, e0: nat, x0: nat, i: nat, j: nat, m: nat)
    requires i < |c| && j < |c[i].blocks| && m < |c[i].blocks[j].expansions|
    ensures |ExpansionsBefore(c, i)| + |NamesBefore(c[i].blocks, j)| + m < |ExpansionRows(c, e0, x0, i + 1)|
    ensures ExpansionRows(c, e0, x0, i + 1)[|ExpansionsBefore(c, i)| + |NamesBefore(c[i].blocks, j)| + m] ==
      ExpansionRow(x0 + |ExpansionsBefore(c, i)| + |NamesBefore(c[i].blocks, j)| + m,
                   c[i].blocks[j].expansions[m],
                   e0 + |BlocksBefore(c, i)| + j)
  {
    var pre := ExpansionRows(c, e0, x0, i);
    var bs := c[i].blocks;
    var last := ExpansionRowsOf(bs, e0 + |BlocksBefore(c, i)|, x0 + |ExpansionsBefore(c, i)|, |bs|);
    assert ExpansionRows(c, e0, x0, i + 1) == pre + last;
    ExpansionRowsLength(c, e0, x0, i);
    ExpansionRowOfAt(bs, e0 + |BlocksBefore(c, i)|, x0 + |ExpansionsBefore(c, i)|, |bs|, j, m);
    var k := |NamesBefore(bs, j)| + m;
    assert (pre + last)[|pre| + k] == last[k];
  }

  /** Expansion `m` of block `j` of set `i` gets the row right after the
      expansions that come before it in the file, with the matching fresh id,
      its own name, and the id of the row of its own block (see `BlockRowAt`). */
  lemma {:induction false} ExpansionRowAt(c: Catalog, e0: nat, x0: nat, n: nat, i: nat, j: nat, m: nat)
    requires i < n <= |c| && j < |c[i].blocks| && m < |c[i].blocks[j].expansions|
    ensures |ExpansionsBefore(c, i)| + |NamesBefore(c[i].blocks, j)| + m < |ExpansionRows(c, e0, x0, n)|
    ensures ExpansionRows(c, e0, x0, n)[|ExpansionsBefore(c, i)| + |NamesBefore(c[i].blocks, j)| + m] ==
      ExpansionRow(x0 + |ExpansionsBefore(c, i)| + |NamesBefore(c[i].blocks, j)| + m,
                   c[i].blocks[j].expansions[m],
                   e0 + |BlocksBefore(c, i)| + j)
  {
    if i < n - 1 {
      var pre := ExpansionRows(c, e0, x0, n - 1);
      var p := |ExpansionsBefore(c, i)| + |NamesBefore(c[i].blocks, j)| + m;
      ExpansionRowAt(c, e0, x0, n - 1, i, j, m);
      assert ExpansionRows(c, e0, x0, n)[p] == pre[p];
    } else {
      ExpansionRowOfLastSet(c, e0, x0, i, j, m);
    }
  }

  /** No cross-linking: the expansion at (i, j, m) points at exactly the id of
      the block row of (i, j), and that row points at exactly the id of the
      set row of i. */
  lemma ImportedParents(c: Catalog, s0: nat, e0: nat, x0: nat, i: nat, j: nat, m: nat)
    requires i < |c| && j < |c[i].blocks| && m < |c[i].blocks[j].expansions|
    ensures var b := |BlocksBefore(c, i)| + j;
      var x := |ExpansionsBefore(c, i)| + |NamesBefore(c[i].blocks, j)| + m;
      b < |BlockRows(c, s0, e0, |c|)| && x < |ExpansionRows(c, e0, x0, |c|)| &&
      ExpansionRows(c, e0, x0, |c|)[x].expansionBlockId == BlockRows(c, s0, e0, |c|)[b].id &&
      i < |SetRows(c, s0, |c|)| &&
      BlockRows(c, s0, e0, |c|)[b].blockSetId == SetRows(c, s0, |c|)[i].id
  {
    BlockRowAt(c, s0, e0, |c|, i, j);
    ExpansionRowAt(c, e0, x0, |c|, i, j, m);
    SetRowAt(c, s0, |c|, i);
  }

  // ---- The comprehension counts are the sums ----

  lemma {:induction false} BlocksBeforeSum(c: Catalog, n: nat)
    requires n <= |c|
    ensures |BlocksBefore(c, n)| + BlockSum(c[n..]) == BlockSum(c)
  {
    if n == 0 {
      assert c[0..] == c;
    } else {
      BlocksBeforeSum(c, n - 1);
      assert c[n - 1..][1..] == c[n..];
    }
  }

  lemma {:induction false} NamesBeforeSum(bs: seq<Block>, n: nat)
    requires n <= |bs|
    ensures |NamesBefore(bs, n)| + ExpansionSumOf(bs[n..]) == ExpansionSumOf(bs)
  {
    if n == 0 {
      assert bs[0..] == bs;
    } else {
      NamesBeforeSum(bs, n - 1);
      assert bs[n - 1..][1..] == bs[n..];
    }
  }

  lemma {:induction false} ExpansionsBeforeSum(c: Catalog, n: nat)
    requires n <= |c|
    ensures |ExpansionsBefore(c, n)| + ExpansionSum(c[n..]) == ExpansionSum(c)
  {
    if n == 0 {
      assert c[0..] == c;
    } else {
      ExpansionsBeforeSum(c, n - 1);
      NamesBeforeSum(c[n - 1].blocks, |c[n - 1].blocks|);
      assert c[n - 1].blocks[|c[n - 1].blocks|..] == [];
      assert c[n - 1..][1..] == c[n..];
    }
  }

  /** `expansion_blocks_count` is the total number of blocks over all sets. */
  lemma BlocksCountIsSum(c: Catalog)
    ensures ExpansionBlocksCount(c) == BlockSum(c)
  {
    BlocksBeforeSum(c, |c|);
    assert c[|c|..] == [];
  }

  /** `expansions_count` is the total number of expansions over all blocks of all sets. */
  lemma ExpansionsCountIsSum(c: Catalog)
    ensures ExpansionsCount(c) == ExpansionSum(c)
  {
    ExpansionsBeforeSum(c, |c|);
    assert c[|c|..] == [];
  }

  /** A run that meets no empty block set imports the whole catalog. After
      it the tables hold the catalog and nothing else: both resets took
      effect before the first insert, no card is left, and each table has as
      many rows as the script counted up front. */
  lemma FillLeavesOnlyCatalog(t: Tables, c: Catalog)
    requires Completes(c)
    ensures Fill(t, c).blockSets == SetRows(c, t.nextBlockSetId, |c|)
    ensures Fill(t, c).expansionBlocks == BlockRows(c, t.nextBlockSetId, t.nextExpansionBlockId, |c|)
    ensures Fill(t, c).expansions == ExpansionRows(c, t.nextExpansionBlockId, t.nextExpansionId, |c|)
    ensures Fill(t, c).cards == []
    ensures |Fill(t, c).blockSets| == |c|
    ensures |Fill(t, c).expansionBlocks| == ExpansionBlocksCount(c)
    ensures |Fill(t, c).expansions| == ExpansionsCount(c)
  {
    assert ImportedCount(c) == |c|;
    var cleared := DeleteCards(DeleteBlockSets(t));
    ImportCatalogCounters(cleared, c, |c|);
    ImportCatalogSets(cleared, c, |c|);
    ImportCatalogBlocks(cleared, c, |c|);
    ImportCatalogExpansions(cleared, c, |c|);
    SetRowsLength(c, t.nextBlockSetId, |c|);
    BlockRowsLength(c, t.nextBlockSetId, t.nextExpansionBlockId, |c|);
    ExpansionRowsLength(c, t.nextExpansionBlockId, t.nextExpansionId, |c|);
  }

  /** A run that meets an empty block set stops right after inserting that
      set's row: the tables hold the sets up to and including it, the blocks
      and expansions of the sets before it, and nothing of the sets after it. */
  lemma FillStopsAtEmptySet(t: Tables, c: Catalog)
    requires !Completes(c)
    ensures FirstEmptySet(c) < |c|
    ensures Fill(t, c).blockSets == SetRows(c, t.nextBlockSetId, FirstEmptySet(c) + 1)
    ensures |Fill(t, c).blockSets| == FirstEmptySet(c) + 1
    ensures Fill(t, c).blockSets[FirstEmptySet(c)] ==
      BlockSetRow(t.nextBlockSetId + FirstEmptySet(c), c[FirstEmptySet(c)].name)
    ensures Fill(t, c).expansionBlocks == BlockRows(c, t.nextBlockSetId, t.nextExpansionBlockId, FirstEmptySet(c))
    ensures Fill(t, c).expansions == ExpansionRows(c, t.nextExpansionBlockId, t.nextExpansionId, FirstEmptySet(c))
    ensures Fill(t, c).cards == []
  {
    var e := FirstEmptySet(c);
    var cleared := DeleteCards(DeleteBlockSets(t));
    assert Fill(t, c) == ImportCatalog(cleared, c, e + 1);
    ImportCatalogCounters(cleared, c, e + 1);
    ImportCatalogSets(cleared, c, e + 1);
    SetRowAt(c, t.nextBlockSetId, e + 1, e);
    ImportCatalogBlocks(cleared, c, e + 1);
    EmptySetAddsNoBlocks(c, t.nextBlockSetId, t.nextExpansionBlockId, e);
    ImportCatalogExpansions(cleared, c, e + 1);
    EmptySetAddsNoExpansions(c, t.nextExpansionBlockId, t.nextExpansionId, e);
  }

  /** A set with no blocks contributes no block rows. */
  lemma EmptySetAddsNoBlocks(c: Catalog, s0: nat, e0: nat, e: nat)
    requires e < |c| && c[e].blocks == []
    ensures BlockRows(c, s0, e0, e + 1) == BlockRows(c, s0, e0, e)
  {
    assert BlockListRows(c[e].blocks, e0 + |BlocksBefore(c, e)|, s0 + e, 0) == [];
  }

  /** A set with no blocks contributes no expansion rows. */
  lemma EmptySetAddsNoExpansions(c: Catalog, e0: nat, x0: nat, e: nat)
    requires e < |c| && c[e].blocks == []
    ensures ExpansionRows(c, e0, x0, e + 1) == ExpansionRows(c, e0, x0, e)
  {
    assert ExpansionRowsOf(c[e].blocks, e0 + |BlocksBefore(c, e)|, x0 + |ExpansionsBefore(c, e)|, 0) == [];
  }

  // ---- The script ----

  /** What a run reports: nothing when the user declines; otherwise the
      three counts it prints before the reset and the two delete counts, and,
      when it dies on a block set with no expansion blocks, that set's key. */
  datatype Outcome =
    | Declined
    | Completed(blockSetsCount: nat, expansionBlocksCount: nat, expansionsCount: nat,
                deletedSetsCount: nat, deletedCardsCount: nat)
    | Aborted(blockSetsCount: nat, expansionBlocksCount: nat, expansionsCount: nat,
              deletedSetsCount: nat, deletedCardsCount: nat, emptySet: string)

  /** The innermost insert loop: one `add_expansion` per name, under the id
      of the block row just created. */
  method AddExpansions(store: Store, names: seq<string>, blockId: nat)
    requires store.Valid() && HasExpansionBlock(store.State(), blockId)
    modifies store
    ensures store.Valid()
    ensures store.State() == ImportExpansions(old(store.State()), names, blockId, |names|)
  {
    ghost var start := store.State();
    for m := 0 to |names|
      invariant store.Valid()
      invariant store.State() == ImportExpansions(start, names, blockId, m)
      invariant store.expansionBlocks == start.expansionBlocks
    {
      var r := store.AddExpansion(names[m], blockId);
      if r.Err? {
        assert false;
      }
    }
  }

  /** One pass of the middle loop: `add_expansion_block` under the id of the
      set row just created, then the block's expansions under the id of the
      block row this call returns. */
  method AddBlock(store: Store, block: Block, setId: nat)
    requires store.Valid() && HasBlockSet(store.State(), setId)
    modifies store
    ensures store.Valid()
    ensures store.State() == ImportBlock(old(store.State()), block, setId)
  {
    ghost var before := store.State();
    var r := store.AddExpansionBlock(block.name, setId);
    if r.Err? {
      assert false;
    }
    WithExpansionBlockConsistent(before, block.name, setId);
    AddExpansions(store, block.expansions, r.value.id);
  }

  /** The middle insert loop: every block of one set, in order. The loop
      walks the set through the progress bar, whose first redraw divides by
      the number of blocks; on a set with no blocks that raises
      `ZeroDivisionError` before any insert, reported here as `ok == false`. */
  method AddBlocks(store: Store, blocks: seq<Block>, setId: nat) returns (ok: bool)
    requires store.Valid() && HasBlockSet(store.State(), setId)
    modifies store
    ensures store.Valid()
    ensures ok == (blocks != [])
    ensures store.State() == ImportBlocks(old(store.State()), blocks, setId, |blocks|)
  {
    if blocks == [] {
      return false;
    }
    ghost var start := store.State();
    for j := 0 to |blocks|
      invariant store.Valid()
      invariant store.State() == ImportBlocks(start, blocks, setId, j)
      invariant store.blockSets == start.blockSets
    {
      ghost var before := store.State();
      AddBlock(store, blocks[j], setId);
      ImportExpansionsShape(WithExpansionBlock(before, blocks[j].name, setId), blocks[j].expansions,
        before.nextExpansionBlockId, |blocks[j].expansions|);
    }
    ok := true;
  }

  /** One pass of the outer loop: `add_block_set` with the key as name, then
      the set's blocks under the id of the row this call returns. The set's
      row is in place even when its blocks cannot be walked. */
  method AddSet(store: Store, blockSet: BlockSet) returns (ok: bool)
    requires store.Valid()
    modifies store
    ensures store.Valid()
    ensures ok == (blockSet.blocks != [])
    ensures store.State() == ImportSet(old(store.State()), blockSet)
  {
    ghost var before := store.State();
    var setRow := store.AddBlockSet(blockSet.name);
    WithBlockSetConsistent(before, blockSet.name);
    ok := AddBlocks(store, blockSet.blocks, setRow.id);
  }

  /** The outer insert loop: one `add_block_set` per key, in order, each
      followed by its blocks, until a set with no blocks ends the script.
      No insert is ever refused, because each parent row exists when its
      children are added. */
  method ImportAll(store: Store, c: Catalog) returns (completed: bool)
    requires store.Valid()
    modifies store
    ensures store.Valid()
    ensures completed == Completes(c)
    ensures store.State() == ImportCatalog(old(store.State()), c, ImportedCount(c))
  {
    ghost var start := store.State();
    for i := 0 to |c|
      invariant store.Valid()
      invariant i <= FirstEmptySet(c)
      invariant store.State() == ImportCatalog(start, c, i)
    {
      var ok := AddSet(store, c[i]);
      if !ok {
        assert FirstEmptySet(c) == i;
        return false;
      }
    }
    completed := true;
  }

  /** The script after `load_dotenv`: the prompt, the counts, both resets,
      then the import. Declining changes nothing. */
  method Run(store: Store, answer: string, c: Catalog) returns (outcome: Outcome)
    requires store.Valid()
    modifies store
    ensures store.Valid()
    ensures !Proceeds(answer) ==> outcome == Declined && store.State() == old(store.State())
    ensures Proceeds(answer) ==> store.State() == Fill(old(store.State()), c)
    ensures Proceeds(answer) && Completes(c) ==>
      outcome == Completed(|c|, ExpansionBlocksCount(c), ExpansionsCount(c),
                           |old(store.blockSets)|, |old(store.cards)|)
    ensures Proceeds(answer) && !Completes(c) ==>
      FirstEmptySet(c) < |c| &&
      outcome == Aborted(|c|, ExpansionBlocksCount(c), ExpansionsCount(c),
                         |old(store.blockSets)|, |old(store.cards)|, c[FirstEmptySet(c)].name)
  {
    if LowerString(answer) == "n" {
      return Declined;
    }
    var blockSetsCount := |c|;
    var expansionBlocksCount := |BlocksBefore(c, |c|)|;
    var expansionsCount := |ExpansionsBefore(c, |c|)|;
    var deletedSets := store.DeleteAllBlockSets();
    var deletedCards := store.DeleteAllCards();
    var completed := ImportAll(store, c);
    if completed {
      outcome := Completed(blockSetsCount, expansionBlocksCount, expansionsCount, deletedSets, deletedCards);
    } else {
      var e := FirstEmptySet(c);
      outcome := Aborted(blockSetsCount, expansionBlocksCount, expansionsCount, deletedSets, deletedCards,
                         c[e].name);
    }
  }
}
