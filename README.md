# wowtcg-tracker-api: schema casing and catalog fill, in Dafny

This project models the two maintenance scripts of the WoWTCG tracker API and
proves what they do.

- **The schema casing pass** (`prisma/prisma_model_camel_to_pascal.py`) walks
  the lines of `schema.prisma` and does three things:
  - it rewrites every `model X` and `enum X` header with `X` converted to Pascal
    case by `X.replace("_", " ").title().replace(" ", "")`;
  - it rewrites field lines whose type token refers to a declaration. Every
    `X[]` reference to a model, and every `X`/`X?` reference to an enum, is
    rewritten. A bare `X`/`X?` reference to a model is rewritten only when the
    third token starts with `@relation`; otherwise the line is left alone;
  - it inserts `  @@map("X")` right after each model header, so the generated
    classes get Pascal-case names while the tables keep theirs.
- **The catalog fill script** (`db/fill_db.py`) runs in this order:
  - it asks for confirmation;
  - it counts the block sets, expansion blocks and expansions of the catalog;
  - it empties the block-set and card tables;
  - it inserts the catalog level by level, giving every child row the id of
    the row just created for its parent.
  - It walks each block set's blocks through a progress bar
    (`db/progressbar.py`). The bar's first redraw divides by the number of
    items, so a block set with no blocks raises `ZeroDivisionError`. The
    script dies right after inserting that set's row.

The modules follow the scripts:

| module | file | what it holds |
|---|---|---|
| `Text` | `text.dfy` | Python's `str.split()`, `" ".join`, `lower()` on ASCII text, with the split/join round trip |
| `PascalCase` | `pascal_case.dfy` | the name conversion and a character-by-character reading of its result |
| `SchemaCasing` | `schema_casing.dfy` | the casing pass as a method over the list of lines, and what becomes of each original line |
| `CatalogStore` | `catalog_store.dfy` | the four tables the fill script touches, as values, and a `Store` class whose methods are the database functions it calls |
| `FillDb` | `fill_db.dfy` | the confirmation, the counts and the three nested insert loops, as methods on a `Store`, proved against pure functions of the catalog |

The casing pass edits the Python list in place while it walks a snapshot of
the original lines. `SchemaCasing.ConvertSchema` reassigns a local sequence the
same way: an index assignment for the header, the inner loop over every
current line, then an insertion.

The proof tracks each line of the original input:
- `LineAfter(input, k, i)` is the text of original line `k` after `i` outer
  iterations;
- `Pos(input, k)` is where that line ends up, `k` plus the number of model
  headers before it (the script's `added_lines`).

The fill script's database is the `Store` class. Its fields are the table
contents and the next id of each auto-increment column. Each method states its
new state as a function of the old one (`WithBlockSet`, `WithExpansionBlock`,
...). Those functions keep the invariant `Consistent`: ids increase, and every
foreign key names an existing row.

The insert loops are `FillDb.AddExpansions`, `AddBlocks` and `ImportAll`, each
with its invariant. Each is proved equal to a function of the catalog
(`ImportExpansions`, `ImportBlocks`, `ImportCatalog`). Lemmas then state what
that function inserts: the rows, their ids and their parent ids.

The script as written differs from a plain reading of its purpose in two
places. The model follows the code in both:
- The `@relation` branch (lines 28-31) writes the bare converted name, so a
  reference `X? @relation(...)` loses its `?`.
- The inner loop also visits the header line it has just written.
  - A `model X {` header whose name is already in Pascal case is left alone,
    because its third token is `{`, not `@relation`.
  - An `enum X {` header whose name the conversion leaves unchanged is
    rewritten as a field line, with two spaces of indent.

  `SchemaCasing.HeaderLands` therefore requires that every declaration from
  the header on, its own included, leaves the written header alone.
  `SchemaCasing.ModelHeaderKept` shows that model declarations do so for an
  ordinary model header. `SchemaCasing.EnumHeaderIndented` proves the
  indented enum header.

The fill script neither checks for duplicate names nor handles errors per
record: any database error ends the script. Only the foreign-key check is
modelled, as an `Err` result, and the import is proved never to trigger it.
The one failure the model does follow is the progress bar's division by zero
on a block set with no blocks. `FillDb.FirstEmptySet` finds that set, and
`FillDb.Run` then reports `Aborted`.

## Model

| member | source | states |
|---|---|---|
| `Text.Split` | prisma/prisma_model_camel_to_pascal.py:12 | `str.split()` with no argument: the maximal runs of non-whitespace characters, in order; its properties are the contracts of `SplitTokens`, `SplitAround` and `SplitJoin` |
| `Text.WordLength` | prisma/prisma_model_camel_to_pascal.py:12 | the first word ends at the first whitespace character: everything before it is non-whitespace, and the character at the result is whitespace unless the string ends there |
| `Text.SplitTokens` | prisma/prisma_model_camel_to_pascal.py:12 | every element `split()` returns is non-empty and holds no whitespace |
| `Text.SplitAround` | prisma/prisma_model_camel_to_pascal.py:12 | splitting `s + [c] + t` around a whitespace character `c` is the split of `s` followed by the split of `t` |
| `Text.SplitJoin` | prisma/prisma_model_camel_to_pascal.py:17 | joining tokens with single spaces and splitting again gives back exactly those tokens |
| `Text.JoinedLineTokens` | prisma/prisma_model_camel_to_pascal.py:17 | a header written as `" ".join(tokens) + "\n"` splits back to the same tokens |
| `Text.IndentedLineTokens` | prisma/prisma_model_camel_to_pascal.py:26 | a field line written as `"  " + " ".join(tokens) + "\n"` splits back to the same tokens, so the indent changes no token |
| `PascalCase.Pascal` | prisma/prisma_model_camel_to_pascal.py:16 | `name.replace("_", " ").title().replace(" ", "")`; `PascalSpec` characterises it position by position through `CaseAt` |
| `PascalCase.RemoveCharKeeps` | prisma/prisma_model_camel_to_pascal.py:16 | `replace(c, "")` shortens the string by the number of `c`s, and what is left holds no `c` and only characters of the input |
| `PascalCase.TitleOfReplacedAt` | prisma/prisma_model_camel_to_pascal.py:16 | after `_` becomes a space and `title()` runs, position `i` holds a space where the name had `_`; otherwise a letter is upper-cased at the start or after a non-letter and lower-cased after a letter |
| `PascalCase.PascalSpec` | prisma/prisma_model_camel_to_pascal.py:16 | the converted name is the input with its underscores dropped: its length is `len - #underscores`, and every other character keeps its order with the case `title()` gives it |
| `PascalCase.PascalHasNoUnderscore` | prisma/prisma_model_camel_to_pascal.py:16 | the converted name contains no `_` |
| `PascalCase.PascalHasNoSpace` | prisma/prisma_model_camel_to_pascal.py:16 | the conversion brings in no whitespace, so a converted name stays one token |
| `PascalCase.PascalIsToken` | prisma/prisma_model_camel_to_pascal.py:15-17 | a name token that is not all underscores converts to a token |
| `PascalCase.PascalLowersInnerCapital` | prisma/prisma_model_camel_to_pascal.py:16 | a capital right after a letter is lower-cased, so a name already in Pascal case can change: the conversion is not idempotent |
| `PascalCase.CamelNameIsChanged` | prisma/prisma_model_camel_to_pascal.py:16 | `CardPrint` does not convert to itself |
| `SchemaCasing.DeclOf` | prisma/prisma_model_camel_to_pascal.py:12-15 | a line declares a model or an enum when its first token is `model` or `enum` and it has a second token, the name (the enum branch is lines 37-38); lines with fewer tokens raise `IndexError` and are skipped |
| `SchemaCasing.HeaderText` | prisma/prisma_model_camel_to_pascal.py:16-17 | the header written back: the tokens re-joined by single spaces, the name converted, no indent (enum branch lines 39-40); `HeaderTokens` gives its tokens |
| `SchemaCasing.RewriteReference` | prisma/prisma_model_camel_to_pascal.py:19-54 | the inner loop's rule for one line and one declaration: the model rule of lines 22-31 and the enum rule of lines 44-52; `ModelListReference`, `ModelRelationReference`, `ModelPlainReferenceKept` and `EnumReference` state each branch |
| `SchemaCasing.MapLine` | prisma/prisma_model_camel_to_pascal.py:35 | the `  @@map("<old name>")` line inserted after a model header; `MapLineUntouched` shows no later declaration rewrites it |
| `SchemaCasing.RewriteReferences` | prisma/prisma_model_camel_to_pascal.py:19-33 | the inner loop rewrites every current line by the reference rules for one declaration and keeps the number of lines |
| `SchemaCasing.ConvertSchema` | prisma/prisma_model_camel_to_pascal.py:10-56 | the output has one more line per model header and none per enum; original line `k` lands at `k` plus the number of model headers before it, with its final text; each model header is followed by exactly `  @@map("<original name>")` |
| `SchemaCasing.MapLineUntouched` | prisma/prisma_model_camel_to_pascal.py:35 | an inserted `@@map` line is a single token, so no later declaration rewrites it |
| `SchemaCasing.ModelStep` | prisma/prisma_model_camel_to_pascal.py:14-36 | one outer iteration over a model header keeps the loop invariant: the header is overwritten, every line is rewritten for the model, and the `@@map` line is inserted after the header |
| `SchemaCasing.EnumStep` | prisma/prisma_model_camel_to_pascal.py:37-54 | one outer iteration over an enum header keeps the loop invariant and inserts no line |
| `SchemaCasing.PlainStep` | prisma/prisma_model_camel_to_pascal.py:13-14 | one outer iteration over a line that declares nothing changes no line |
| `SchemaCasing.StableLine` | prisma/prisma_model_camel_to_pascal.py:19-33 | a line that none of a range of declarations refers to keeps its text through those iterations |
| `SchemaCasing.ShortLineKept` | prisma/prisma_model_camel_to_pascal.py:32-33 | a line with fewer than two tokens (blank line, brace, lone keyword) comes out unchanged and is never taken for a header |
| `SchemaCasing.UnreferencedLineKept` | prisma/prisma_model_camel_to_pascal.py:22 | a line that is not a header, and whose second token refers to no declaration, comes out unchanged |
| `SchemaCasing.HeaderTokens` | prisma/prisma_model_camel_to_pascal.py:14-17 | the header as written back splits into the original tokens with only the name converted |
| `SchemaCasing.HeaderKept` | prisma/prisma_model_camel_to_pascal.py:14-52 | a written header keeps its text through every later iteration whose declaration leaves that text alone |
| `SchemaCasing.HeaderLands` | prisma/prisma_model_camel_to_pascal.py:14-52 | a header comes out as its tokens joined by single spaces, with no indent and only the name converted, whenever every declaration from it on leaves that text alone |
| `SchemaCasing.ModelHeaderKept` | prisma/prisma_model_camel_to_pascal.py:19-31 | no model declaration rewrites a model header whose third token is not `@relation...` (for example `model User {`), whatever the two names |
| `SchemaCasing.EnumHeaderIndented` | prisma/prisma_model_camel_to_pascal.py:37-52 | an enum header whose name the conversion leaves unchanged is rewritten by its own declaration as the same text with two spaces of indent |
| `SchemaCasing.ReferenceRewrittenOnce` | prisma/prisma_model_camel_to_pascal.py:19-31 | a field line that exactly one declaration refers to comes out as that declaration's rewrite of it |
| `SchemaCasing.ModelListReference` | prisma/prisma_model_camel_to_pascal.py:23-26 | for a model `X`, a field of type `X[]` becomes `Pascal(X)[]` on a line indented by two spaces; no other token changes |
| `SchemaCasing.ModelRelationReference` | prisma/prisma_model_camel_to_pascal.py:28-31 | for a model `X`, a field of type `X` or `X?` followed by an `@relation...` token gets the bare `Pascal(X)`, so the `?` is dropped; the line is rewritten as its tokens joined by single spaces with a two-space indent, and no other token changes |
| `SchemaCasing.ModelPlainReferenceKept` | prisma/prisma_model_camel_to_pascal.py:22-28 | for a model `X`, a field of type `X` or `X?` without an `@relation...` third token is left unchanged |
| `SchemaCasing.EnumReference` | prisma/prisma_model_camel_to_pascal.py:44-52 | for an enum `X`, `X?` becomes `Pascal(X)?` and `X` becomes `Pascal(X)`, whatever follows; the line is rewritten as its tokens joined by single spaces with a two-space indent, and no other token changes |
| `CatalogStore.DeleteBlockSets` | api/database.py:13-18 | `blockset.delete_many()`, with the blocks and expansions that hang off the sets; `DeleteBlockSetsConsistent` states its effect |
| `CatalogStore.DeleteCards` | api/database.py:37-42 | `card.delete_many()`: the card table becomes empty; `Store.DeleteAllCards` states the whole new state |
| `CatalogStore.WithBlockSet` | api/database.py:80-85 | `blockset.create`: one row appended with the next id; `WithBlockSetConsistent` states that the id is fresh and the tables stay consistent |
| `CatalogStore.WithExpansionBlock` | api/database.py:88-97 | `expansionblock.create` under an existing block set; `WithExpansionBlockConsistent` states its properties |
| `CatalogStore.WithExpansion` | api/database.py:100-109 | `expansion.create` under an existing expansion block; `WithExpansionConsistent` states its properties |
| `CatalogStore.DeleteBlockSetsConsistent` | api/database.py:13-18 | emptying the block sets, with their blocks and expansions, leaves all three of those tables empty, keeps the tables consistent, and leaves the cards and all three id counters alone |
| `CatalogStore.WithBlockSetConsistent` | api/database.py:80-85 | a new block set gets an id no existing row has, the row exists afterwards, and the tables stay consistent |
| `CatalogStore.WithExpansionBlockConsistent` | api/database.py:88-97 | a new expansion block under an existing block set gets a fresh id, exists afterwards, and keeps the tables consistent |
| `CatalogStore.WithExpansionConsistent` | api/database.py:100-109 | a new expansion under an existing expansion block gets a fresh id and keeps the tables consistent |
| `CatalogStore.Store.DeleteAllBlockSets` | api/database.py:13-18 | returns the number of block sets removed; afterwards the block-set, expansion-block and expansion tables are empty |
| `CatalogStore.Store.DeleteAllCards` | api/database.py:37-42 | returns the number of cards removed and empties the card table |
| `CatalogStore.Store.AddBlockSet` | api/database.py:80-85 | appends one row with the next id and the given name, and returns it |
| `CatalogStore.Store.AddExpansionBlock` | api/database.py:88-97 | with an existing block set, appends and returns one row with the next id; otherwise fails with `MissingBlockSet` and changes nothing |
| `CatalogStore.Store.AddExpansion` | api/database.py:100-109 | with an existing expansion block, appends and returns one row with the next id; otherwise fails with `MissingExpansionBlock` and changes nothing |
| `FillDb.Proceeds` | db/fill_db.py:56 | the script goes on unless the lower-cased answer is `n`; `ProceedsUnlessN` spells out which answers stop it |
| `FillDb.ExpansionBlocksCount` | db/fill_db.py:70-73 | `expansion_blocks_count`, the length of the flattened list of blocks; `BlocksCountIsSum` relates it to the per-set sum |
| `FillDb.ExpansionsCount` | db/fill_db.py:74-77 | `expansions_count`, the length of the flattened list of expansions; `ExpansionsCountIsSum` relates it to the per-block sum |
| `FillDb.ProceedsUnlessN` | db/fill_db.py:54-57 | the script stops exactly when the answer is `n` or `N`; any other answer, the empty one included, goes on |
| `FillDb.BlocksCountIsSum` | db/fill_db.py:70-73 | `expansion_blocks_count` is the sum, over the block sets, of their numbers of blocks |
| `FillDb.ExpansionsCountIsSum` | db/fill_db.py:74-77 | `expansions_count` is the sum, over all blocks of all sets, of their numbers of expansions |
| `FillDb.ImportExpansionsShape` | db/fill_db.py:116-120 | a block's expansions are appended in order with consecutive fresh ids, all under the given block id; no other table or counter changes |
| `FillDb.ImportBlocksShape` | db/fill_db.py:110-120 | a set's blocks are appended in order under the set's id, and each block's expansions follow under that block's own new id |
| `FillDb.ImportSetShape` | db/fill_db.py:106-120 | one pass of the outer loop appends one block-set row with the key as name, then its blocks and expansions, and leaves the cards alone |
| `FillDb.ImportCatalogCounters` | db/fill_db.py:106-120 | the import advances the three id counters by the numbers of sets, blocks and expansions, and leaves the cards alone |
| `FillDb.ImportCatalogSets` | db/fill_db.py:106-109 | the import appends one block-set row per key, in the order of the keys |
| `FillDb.ImportCatalogBlocks` | db/fill_db.py:110-115 | the import appends exactly one expansion-block row per block, set after set |
| `FillDb.ImportCatalogExpansions` | db/fill_db.py:116-120 | the import appends exactly one expansion row per expansion, block after block |
| `FillDb.BlockRowAt` | db/fill_db.py:112-115 | block `j` of set `i` is stored after the blocks of the earlier sets, with its name and the id of set `i`'s row |
| `FillDb.ExpansionRowAt` | db/fill_db.py:116-120 | expansion `m` of block `j` of set `i` is stored after all expansions before it, with its name and the id of its own block's row |
| `FillDb.ImportedParents` | db/fill_db.py:109-120 | no cross-linking: each expansion points at its own block's row, and each block at its own set's row |
| `FillDb.FirstEmptySet` | db/progressbar.py:19-33 | the position of the first block set with no blocks, the one on which the progress bar divides by zero; every set before it has blocks, and it is `\|c\|` exactly when every set has blocks |
| `FillDb.FillLeavesOnlyCatalog` | db/fill_db.py:69-120 | after a run over a catalog with no empty block set, the tables hold the catalog's rows and nothing else, and no card is left, so both resets took effect before any insert; each table has as many rows as the script counted up front |
| `FillDb.FillStopsAtEmptySet` | db/fill_db.py:106-110 | after a run that meets an empty block set, the tables hold the set rows up to and including that set, the blocks and expansions of the sets before it only, and no card |
| `FillDb.EmptySetAddsNoBlocks` | db/fill_db.py:110-115 | a block set with no blocks contributes no expansion-block rows |
| `FillDb.EmptySetAddsNoExpansions` | db/fill_db.py:116-120 | a block set with no blocks contributes no expansion rows |
| `FillDb.AddExpansions` | db/fill_db.py:116-120 | the innermost loop produces exactly `ImportExpansions` of the block's names under its id |
| `FillDb.AddBlock` | db/fill_db.py:112-120 | one pass of the middle loop adds the block under the set's id, then its expansions under the id the call returned |
| `FillDb.AddBlocks` | db/fill_db.py:110-120 | the middle loop produces exactly `ImportBlocks` of the set's blocks; it reports failure exactly when the set has no blocks, the progress bar's division by zero (db/progressbar.py lines 19-33), having inserted nothing |
| `FillDb.AddSet` | db/fill_db.py:109-120 | one pass of the outer loop adds the block set, then its blocks under the id the call returned; it fails exactly when the set has no blocks, and the set's row is in place even then |
| `FillDb.ImportAll` | db/fill_db.py:106-120 | the outer loop produces exactly `ImportCatalog` of the sets up to and including the first empty one (all sets when there is none) and completes exactly when no set is empty; no insert is refused |
| `FillDb.Run` | db/fill_db.py:54-120 | on `n`/`N` the run declines and changes nothing; otherwise it leaves the store as `Fill` of the old store (both resets, then the import as far as it gets) and reports the three counts and the two delete counts, as `Completed` when no block set is empty and as `Aborted` with the first empty set's key otherwise |

## Left out

- Reading and writing `schema.prisma` (prisma/prisma_model_camel_to_pascal.py lines 8-9 and 58-59): the model takes the list of lines and returns the new list.
- Unicode: `str.split()` is modelled on ASCII whitespace only, and `str.title()` treats only ASCII letters as cased. Other characters are kept unchanged and count as non-letters.
- `SchemaCasing.HeaderLands` covers headers whose name is not all underscores and whose written text every declaration from the header on leaves alone. The other headers are covered only by `ConvertSchema`'s statement through `Converted`.
- The console output of the fill script (colorama, the section separators, the messages) and the drawing of the progress bar (`db/progressbar.py`). Only the bar's division by zero on an empty block set is modelled.
- `FillDb.Run` reports `Aborted` where the script dies with a `ZeroDivisionError` traceback. The traceback and the exit status are not modelled.
- Repeated keys in `expansions.json`: Python's JSON loader keeps one entry per key, with the last value, at the position of the first occurrence. The catalog is the loaded object, so the model assumes distinct keys. The proofs hold for any sequence, repeated names included.
- `load_dotenv`, `asyncio.run` and the `connect`/`disconnect` around each database call. The calls are modelled as sequential, each completing before the next.
- `get_data_from_json`: JSON parsing, and the exit on a missing or malformed file. The catalog is given as a sequence of block sets, each a sequence of blocks, each a list of expansion names, in file order.
- `FillDb.Run` returns `Declined` where the script calls `sys.exit(0)`; the exit status itself is not modelled.
- The card and card-print import, which is commented out in the script (db/fill_db.py lines 66-67).
- The other functions of `api/database.py` (the other deletes, cards, prints, users, collections, decks) and `api/__init__.py`: the fill script does not call them.
- `schema.prisma` is not part of this model. `CatalogStore.Store.DeleteAllBlockSets` assumes that deleting the block sets cascades to their expansion blocks and expansions.
- Unique-name constraints are not modelled, since the schema that would declare them is not available. Database failures other than a missing parent row (connection loss, constraint errors) are not modelled either.
- `CatalogStore.Store.constructor` models a fresh, empty database; the script's `Prisma()` client connects to whatever the database holds, which the other methods take as their old state.
