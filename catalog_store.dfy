/** The part of the database layer the fill script uses: the block-set,
    expansion-block, expansion and card tables, the `delete_many` calls that
    empty them and the `create` calls that add one row with a fresh
    auto-incremented id. The tables are values (`Tables`) with pure
    operations on them; `Store` is the connection whose fields those
    operations update. */
module CatalogStore {

  datatype BlockSetRow = BlockSetRow(id: nat, name: string)
  datatype ExpansionBlockRow = ExpansionBlockRow(id: nat, name: string, blockSetId: nat)
  datatype ExpansionRow = ExpansionRow(id: nat, name: string, expansionBlockId: nat)
  datatype CardRow = CardRow(id: nat, name: string)

  /** Contents of the tables, with the next id each auto-increment column hands out. */
  datatype Tables = Tables(
    blockSets: seq<BlockSetRow>,
    expansionBlocks: seq<ExpansionBlockRow>,
    expansions: seq<ExpansionRow>,
    cards: seq<CardRow>,
    nextBlockSetId: nat,
    nextExpansionBlockId: nat,
    nextExpansionId: nat)

  /** A `create` whose foreign key names no row. */
  datatype Error = MissingBlockSet(blockSetId: nat) | MissingExpansionBlock(expansionBlockId: nat)

  datatype Result<T> = Ok(value: T) | Err(error: Error)

  /** The id columns of the three auto-increment tables. */
  function BlockSetIdOf(r: BlockSetRow): nat { r.id }
  function ExpansionBlockIdOf(r: ExpansionBlockRow): nat { r.id }
  function ExpansionIdOf(r: ExpansionRow): nat { r.id }

  /** Some row of the table has id `x`. */
  predicate HasId<R>(rows: seq<R>, id: R -> nat, x: nat) {
    exists i :: 0 <= i < |rows| && id(rows[i]) == x
  }

  /** Ids handed out in increasing order, all below the next one. */
  predicate IdsFresh<R>(rows: seq<R>, id: R -> nat, next: nat) {
    (forall i, j :: 0 <= i < j < |rows| ==> id(rows[i]) < id(rows[j])) &&
    (forall i :: 0 <= i < |rows| ==> id(rows[i]) < next)
  }

  predicate HasBlockSet(t: Tables, id: nat) {
    HasId(t.blockSets, BlockSetIdOf, id)
  }

  predicate HasExpansionBlock(t: Tables, id: nat) {
    HasId(t.expansionBlocks, ExpansionBlockIdOf, id)
  }

  /** Every expansion block names an existing block set. */
  predicate BlockParentsExist(sets: seq<BlockSetRow>, blocks: seq<ExpansionBlockRow>) {
    forall i :: 0 <= i < |blocks| ==> HasId(sets, BlockSetIdOf, blocks[i].blockSetId)
  }

  /** Every expansion names an existing expansion block. */
  predicate ExpansionParentsExist(blocks: seq<ExpansionBlockRow>, expansions: seq<ExpansionRow>) {
    forall i :: 0 <= i < |expansions| ==> HasId(blocks, ExpansionBlockIdOf, expansions[i].expansionBlockId)
  }

  /** Ids in each table are handed out in increasing order and stay below the
      next id; every foreign key names an existing parent row. */
  predicate Consistent(t: Tables) {
    IdsFresh(t.blockSets, BlockSetIdOf, t.nextBlockSetId) &&
    IdsFresh(t.expansionBlocks, ExpansionBlockIdOf, t.nextExpansionBlockId) &&
    IdsFresh(t.expansions, ExpansionIdOf, t.nextExpansionId) &&
    BlockParentsExist(t.blockSets, t.expansionBlocks) &&
    ExpansionParentsExist(t.expansionBlocks, t.expansions)
  }

  /** A fresh database: empty tables, ids starting at 1. */
  function EmptyTables(): (t: Tables)
    ensures Consistent(t)
    ensures t.blockSets == [] && t.expansionBlocks == [] && t.expansions == [] && t.cards == []
  {
    Tables([], [], [], [], 1, 1, 1)
  }

  /** `blockset.delete_many()`: the expansion blocks and expansions hang off
      the block sets and go with them; the id counters do not move back. */
  function DeleteBlockSets(t: Tables): Tables {
    t.(blockSets := [], expansionBlocks := [], expansions := [])
  }

  /** `card.delete_many()`. */
  function DeleteCards(t: Tables): Tables {
    t.(cards := [])
  }

  /** `blockset.create(data={"name": name})`. */
  function WithBlockSet(t: Tables, name: string): Tables {
    t.(blockSets := t.blockSets + [BlockSetRow(t.nextBlockSetId, name)],
       nextBlockSetId := t.nextBlockSetId + 1)
  }

  /** `expansionblock.create(...)` once the block set is known to exist. */
  function WithExpansionBlock(t: Tables, name: string, blockSetId: nat): Tables {
    t.(expansionBlocks := t.expansionBlocks + [ExpansionBlockRow(t.nextExpansionBlockId, name, blockSetId)],
       nextExpansionBlockId := t.nextExpansionBlockId + 1)
  }

  /** `expansion.create(...)` once the expansion block is known to exist. */
  function WithExpansion(t: Tables, name: string, expansionBlockId: nat): Tables {
    t.(expansions := t.expansions + [ExpansionRow(t.nextExpansionId, name, expansionBlockId)],
       nextExpansionId := t.nextExpansionId + 1)
  }

  /** Emptying the block-set tables empties all three of them, keeps the
      tables consistent, and leaves the cards and every id counter alone. */
  lemma DeleteBlockSetsConsistent(t: Tables)
    requires Consistent(t)
    ensures Consistent(DeleteBlockSets(t))
    ensures DeleteBlockSets(t).blockSets == [] && DeleteBlockSets(t).expansionBlocks == [] &&
      DeleteBlockSets(t).expansions == []
    ensures DeleteBlockSets(t).cards == t.cards
    ensures DeleteBlockSets(t).nextBlockSetId == t.nextBlockSetId
    ensures DeleteBlockSets(t).nextExpansionBlockId == t.nextExpansionBlockId
    ensures DeleteBlockSets(t).nextExpansionId == t.nextExpansionId
  {
  }

  /** A new block set gets an id no existing row has, and the tables stay consistent. */
  lemma WithBlockSetConsistent(t: Tables, name: string)
    requires Consistent(t)
    ensures Consistent(WithBlockSet(t, name))
    ensures forall i :: 0 <= i < |t.blockSets| ==> t.blockSets[i].id != t.nextBlockSetId
    ensures HasBlockSet(WithBlockSet(t, name), t.nextBlockSetId)
  {
    var u := WithBlockSet(t, name);
    assert BlockParentsExist(u.blockSets, u.expansionBlocks) by {
      forall i | 0 <= i < |t.expansionBlocks|
        ensures HasId(u.blockSets, BlockSetIdOf, t.expansionBlocks[i].blockSetId)
      {
        assert HasId(t.blockSets, BlockSetIdOf, t.expansionBlocks[i].blockSetId);
        var k :| 0 <= k < |t.blockSets| && t.blockSets[k].id == t.expansionBlocks[i].blockSetId;
        assert u.blockSets[k] == t.blockSets[k];
      }
    }
    assert u.blockSets[|t.blockSets|].id == t.nextBlockSetId;
  }

  /** A new expansion block under an existing block set gets a fresh id, and
      the tables stay consistent. */
  lemma WithExpansionBlockConsistent(t: Tables, name: string, blockSetId: nat)
    requires Consistent(t) && HasBlockSet(t, blockSetId)
    ensures Consistent(WithExpansionBlock(t, name, blockSetId))
    ensures forall i :: 0 <= i < |t.expansionBlocks| ==> t.expansionBlocks[i].id != t.nextExpansionBlockId
    ensures HasExpansionBlock(WithExpansionBlock(t, name, blockSetId), t.nextExpansionBlockId)
  {
    var u := WithExpansionBlock(t, name, blockSetId);
    assert ExpansionParentsExist(u.expansionBlocks, u.expansions) by {
      forall i | 0 <= i < |t.expansions|
        ensures HasId(u.expansionBlocks, ExpansionBlockIdOf, t.expansions[i].expansionBlockId)
      {
        assert HasId(t.expansionBlocks, ExpansionBlockIdOf, t.expansions[i].expansionBlockId);
        var k :| 0 <= k < |t.expansionBlocks| && t.expansionBlocks[k].id == t.expansions[i].expansionBlockId;
        assert u.expansionBlocks[k] == t.expansionBlocks[k];
      }
    }
    assert BlockParentsExist(u.blockSets, u.expansionBlocks) by {
      forall i | 0 <= i < |u.expansionBlocks|
        ensures HasId(u.blockSets, BlockSetIdOf, u.expansionBlocks[i].blockSetId)
      {
        if i < |t.expansionBlocks| {
          assert u.expansionBlocks[i] == t.expansionBlocks[i];
        }
      }
    }
    assert u.expansionBlocks[|t.expansionBlocks|].id == t.nextExpansionBlockId;
  }

  /** A new expansion under an existing expansion block gets a fresh id, and
      the tables stay consistent. */
  lemma WithExpansionConsistent(t: Tables, name: string, expansionBlockId: nat)
    requires Consistent(t) && HasExpansionBlock(t, expansionBlockId)
    ensures Consistent(WithExpansion(t, name, expansionBlockId))
    ensures forall i :: 0 <= i < |t.expansions| ==> t.expansions[i].id != t.nextExpansionId
  {
    var u := WithExpansion(t, name, expansionBlockId);
    assert ExpansionParentsExist(u.expansionBlocks, u.expansions) by {
      forall i | 0 <= i < |u.expansions|
        ensures HasId(u.expansionBlocks, ExpansionBlockIdOf, u.expansions[i].expansionBlockId)
      {
        if i < |t.expansions| {
          assert u.expansions[i] == t.expansions[i];
        }
      }
    }
  }

  /** The database connection the script hands to every query. */
  class Store {
    var blockSets: seq<BlockSetRow>
    var expansionBlocks: seq<ExpansionBlockRow>
    var expansions: seq<ExpansionRow>
    var cards: seq<CardRow>
    var nextBlockSetId: nat
    var nextExpansionBlockId: nat
    var nextExpansionId: nat

    function State(): Tables
      reads this
    {
      Tables(blockSets, expansionBlocks, expansions, cards,
             nextBlockSetId, nextExpansionBlockId, nextExpansionId)
    }

    predicate Valid()
      reads this
    {
      Consistent(State())
    }

    constructor ()
      ensures Valid()
      ensures State() == EmptyTables()
    {
      blockSets, expansionBlocks, expansions, cards := [], [], [], [];
      nextBlockSetId, nextExpansionBlockId, nextExpansionId := 1, 1, 1;
    }

    /** `delete_all_block_sets`: returns how many block sets it removed. */
    method DeleteAllBlockSets() returns (count: nat)
      requires Valid()
      modifies this
      ensures Valid()
      ensures count == |old(blockSets)|
      ensures State() == DeleteBlockSets(old(State()))
    {
      count := |blockSets|;
      DeleteBlockSetsConsistent(State());
      blockSets, expansionBlocks, expansions := [], [], [];
    }

    /** `delete_all_cards`: returns how many cards it removed. */
    method DeleteAllCards() returns (count: nat)
      requires Valid()
      modifies this
      ensures Valid()
      ensures count == |old(cards)|
      ensures State() == DeleteCards(old(State()))
    {
      count := |cards|;
      cards := [];
    }

    /** `add_block_set`: returns the created row, whose id is fresh. */
    method AddBlockSet(name: string) returns (row: BlockSetRow)
      requires Valid()
      modifies this
      ensures Valid()
      ensures row == BlockSetRow(old(nextBlockSetId), name)
      ensures State() == WithBlockSet(old(State()), name)
    {
      WithBlockSetConsistent(State(), name);
      row := BlockSetRow(nextBlockSetId, name);
      blockSets := blockSets + [row];
      nextBlockSetId := nextBlockSetId + 1;
    }

    /** `add_expansion_block`: the foreign key must name an existing block
        set, otherwise the database refuses the row and nothing changes. */
    method AddExpansionBlock(name: string, blockSetId: nat) returns (r: Result<ExpansionBlockRow>)
      requires Valid()
      modifies this
      ensures Valid()
      ensures HasBlockSet(old(State()), blockSetId) ==>
        r == Ok(ExpansionBlockRow(old(nextExpansionBlockId), name, blockSetId)) &&
        State() == WithExpansionBlock(old(State()), name, blockSetId)
      ensures !HasBlockSet(old(State()), blockSetId) ==>
        r == Err(MissingBlockSet(blockSetId)) && State() == old(State())
    {
      if HasBlockSet(State(), blockSetId) {
        WithExpansionBlockConsistent(State(), name, blockSetId);
        var row := ExpansionBlockRow(nextExpansionBlockId, name, blockSetId);
        expansionBlocks := expansionBlocks + [row];
        nextExpansionBlockId := nextExpansionBlockId + 1;
        r := Ok(row);
      } else {
        r := Err(MissingBlockSet(blockSetId));
      }
    }

    /** `add_expansion`: the foreign key must name an existing expansion
        block, otherwise the database refuses the row and nothing changes. */
    method AddExpansion(name: string, expansionBlockId: nat) returns (r: Result<ExpansionRow>)
      requires Valid()
      modifies this
      ensures Valid()
      ensures HasExpansionBlock(old(State()), expansionBlockId) ==>
        r == Ok(ExpansionRow(old(nextExpansionId), name, expansionBlockId)) &&
        State() == WithExpansion(old(State()), name, expansionBlockId)
      ensures !HasExpansionBlock(old(State()), expansionBlockId) ==>
        r == Err(MissingExpansionBlock(expansionBlockId)) && State() == old(State())
    {
      if HasExpansionBlock(State(), expansionBlockId) {
        WithExpansionConsistent(State(), name, expansionBlockId);
        var row := ExpansionRow(nextExpansionId, name, expansionBlockId);
        expansions := expansions + [row];
        nextExpansionId := nextExpansionId + 1;
        r := Ok(row);
      } else {
        r := Err(MissingExpansionBlock(expansionBlockId));
      }
    }
  }
}
