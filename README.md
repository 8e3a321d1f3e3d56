# Battleship game logic in Dafny

This is a model of the game-logic layer of a small console Battleship game. The game is played on a
10x10 field of one-character cells:

- `'*'`: an unhit ship part;
- `'-'`: an empty cell;
- `'+'`: a hit part;
- `'Y'`: a part of a sunk ship;
- `'X'`: a miss, or the water around a sunk ship.

The model covers the following parts of the game. Each is proved against a specification function or predicate.

- `board.dfy` (module `Board`):
  - the field;
  - the external coordinates (a column letter and a 1-based row number);
  - the `change` / `has_ship` conversions;
  - Python's negative list indexing.
- `shapes.dfy` (module `Shapes`): ship detection from one ship part.
  - `check_row` scans left, right, down and up.
  - `find_foreign` looks for foreign neighbours.
  - `ship_size` keeps the longer axis.
- `fleet.dfy` (module `Fleet`): the fleet validator `is_valid`.
  - It scans the cells in row-major order and counts each ship once.
  - It compares the size histogram with `{4: 1, 3: 2, 2: 3, 1: 4}`.
- `placement.dfy` (module `Placement`): random placement of the fleet (`generate_ships`, `generate_field`).
  - The placer appears twice in the source: once in `battle_functions.py` and once as `Field._generate_ships` / `Field.generate_field`. It is modelled once.
- `render.dfy` (module `Render`): text rendering (`field_to_str`, `field_with_ships`, `field_without_ships`).
- `battle.dfy` (module `Battle`): the object layer.
  - `Ship` records its hits.
  - `Player` keeps its ship counter.
  - `Field` owns a roster of ships (`_add_ships`, `_find_ship`, `correct_ships`), marks cells and resolves shots (`mark_cell`, `_find_ship_for_position`, `shoot_at`).
- `wrappers.dfy` (module `Wrappers`): the `Option` type.

Randomness is injected as a finite sequence of draws `rng`. Draw `pos` stands for `randrange(n)` as `rng[pos] % n`. A retry loop that runs out of draws reports failure instead of looping on.

Pure source functions become Dafny functions. Source functions that loop over local state become methods with loop invariants, proved equal to a specification function. `Ship`, `Player` and `Field` are classes whose methods update their fields.

## Model

| member | source | states |
|---|---|---|
| Board.Blank | battle_main.py:207 | the starting field has ten rows of ten empty cells |
| Board.Change | battle_functions.py:122-127 | `change` is decoded back exactly by `ord - 65` / `int - 1`; the point is on the board iff both indices are in 0..9 |
| Board.ChangeInjective | battle_functions.py:122-127 | distinct index pairs give distinct points |
| Board.Wrap | battle_functions.py:26-27 | Python indexing of a 10-element list: indices 0..9 are themselves, -10..-1 count from the end |
| Board.HasShip | battle_functions.py:19-29 | for an on-board point, `has_ship` holds iff its cell is `'*'`; negative indices read the wrapped cell |
| Board.MinPoint | battle_main.py:132 | `min` over a non-empty list of points returns a member that no member precedes in tuple order |
| Board.Mark | battle_main.py:79 | one cell is overwritten with the mark; every other cell is unchanged |
| Board.GridExt | battle_main.py:79 | two fields agreeing on every cell are equal |
| Board.StarsMark | battle_functions.py:199-201 | writing a ship part on a cell without one adds exactly one ship part to the field |
| Board.StarsFromMark | battle_functions.py:199-201 | writing a ship part on an empty cell adds one to the count of ship parts from row-major position k on exactly when the cell is at or after k |
| Board.BlankStarsFrom | battle_functions.py:236-245 | the empty field holds no ship part |
| Shapes.Run | battle_functions.py:46-51 | the run from `start + step` towards the exclusive bound `end` holds only `'*'` cells, and the cell after it, if inside the bound, is not `'*'` |
| Shapes.RunIs | battle_functions.py:46-51 | any length whose first positions are ship parts inside the bound, followed by a cell outside the bound or not `'*'`, is the run's length |
| Shapes.ScanCells | battle_functions.py:44-51 | the `range(start + step, end, step)` loop collects the start cell and then exactly the maximal run of ship parts, pair k at position k steps from the start |
| Shapes.ScannedRun | battle_functions.py:46-51 | a list that starts at the start cell, continues over ship parts and stops before a non-`'*'` cell or the bound has one more entry than the run |
| Shapes.ToPoints | battle_functions.py:54-58 | the collected (position, line) pairs, swapped for a column scan, become points through `change`, one per pair |
| Shapes.CheckRow | battle_functions.py:32-59 | the count equals the number of listed coordinates, is at least 1, and is 1 + the maximal run; coordinate k is the cell k steps from the start |
| Shapes.ForeignMeaning | battle_functions.py:74-87 | a foreign neighbour exists iff some 8-neighbour with both indices in 1..9 is `'*'` and not allowed; index 0 is never inspected |
| Shapes.FindForeign | battle_functions.py:62-87 | the loop over the eight directions returns exactly whether a foreign neighbour exists |
| Shapes.AxisShape | battle_functions.py:112-114 | the kept axis contains the queried cell, is the row run or the column run, and is at least as long as either |
| Shapes.HorizontalShape | battle_functions.py:104-112 | the row run holds the queried cell, stays within columns 0..9 and is the contiguous cells of its row from its first column |
| Shapes.HorizontalCells | battle_functions.py:104-112 | every cell of the row run is `'*'`, and the cells just before and after it on the row, when on the board, are not |
| Shapes.VerticalShape | battle_functions.py:108-113 | the column run holds the queried cell, stays within rows 0..9, starts at row 0 only when the cell is there, and is the contiguous cells of its column |
| Shapes.VerticalCells | battle_functions.py:108-113 | every cell of the column run is `'*'`; the cell below it, when on the board, is not; the cell above it is not `'*'` unless it lies in row 0, which the up scan never looks at |
| Shapes.HorizontalStraight | battle_functions.py:104-112 | the row run is a straight line of 1..10 points |
| Shapes.VerticalStraight | battle_functions.py:108-113 | the column run is a straight line of 1..10 points |
| Shapes.ShipShapeCases | battle_functions.py:90-119 | 0 exactly for a non-`'*'` cell; False exactly when some member of the longer axis has a foreign neighbour; otherwise `[n, members]` with `n == len(members)` and the queried cell among the members |
| Shapes.RunCells | battle_functions.py:104-113 | every member of either scan is on the board and holds a ship part |
| Shapes.AcceptedShipIsolated | battle_functions.py:112-119 | an accepted ship is a straight run of 1..10 on-board parts through the cell, and every part with both indices in 1..9 next to a member is a member |
| Shapes.AcceptedNoForeign | battle_functions.py:115-119 | in an accepted ship, every `'*'` neighbour with both indices in 1..9 of every member is itself a member |
| Shapes.TouchingMember | battle_functions.py:115-117 | one member of the kept axis with a foreign neighbour makes `ship_size` return False |
| Shapes.IsolatedAxis | battle_functions.py:115-119 | when no member of the kept axis has a foreign neighbour, `ship_size` returns the axis with its size |
| Shapes.FirstTouching | battle_functions.py:115-117 | the member loop stops at the first member with a foreign neighbour; all members before it have none, and it runs to the end when none has one |
| Shapes.MergedRow | battle_functions.py:104-112 | the left scan reversed, then the right scan without its start, lists the contiguous row run |
| Shapes.MergedColumn | battle_functions.py:108-113 | the up scan reversed, then the down scan without its start, lists the contiguous column run |
| Shapes.ScanRow | battle_functions.py:104-112 | the two row scans give the row run, of size left + right - 1 |
| Shapes.ScanColumn | battle_functions.py:108-113 | the two column scans give the column run, of size up + down - 1; the up scan never reaches row 0 |
| Shapes.LongerAxis | battle_functions.py:104-114 | `max` over the two `[size, members]` lists picks the longer axis, with size equal to its member count |
| Shapes.ShipSize | battle_functions.py:90-119 | `ship_size` returns exactly the shape the specification assigns to the cell |
| Shapes.Reversed | battle_functions.py:55-56 | the reversed list has the same length and reads backwards |
| Fleet.CellAt | battle_functions.py:140-143 | the k-th cell of the row-major scan is on the board at row k / 10, column k % 10 |
| Fleet.AnswersWellFormed | battle_functions.py:146-147 | every ship `ship_size` reports has at least one member and its size is its member count |
| Fleet.IsValid | battle_functions.py:130-155 | `is_valid` returns exactly the verdict of the census specification |
| Fleet.ScanAll | battle_functions.py:140-154 | the two nested loops over all cells raise the KeyError exactly when the census fails, and otherwise gather exactly the census counts |
| Fleet.VisitRow | battle_functions.py:141-152 | one row of the scan either raises the KeyError exactly when the census from that row fails, or advances the census by the ten cells of the row |
| Fleet.CensusEnd | battle_functions.py:140-155 | after the last cell the census yields the counts gathered so far |
| Fleet.VisitCell | battle_functions.py:143-152 | one cell of the scan either raises the KeyError exactly when the census fails, or advances the census by one cell |
| Fleet.CountShape | battle_functions.py:147-152 | a ship is counted only when its first member is not used yet; a size outside the keys is the KeyError |
| Fleet.ShipAt | battle_functions.py:143-146 | the shape visited at (row, column) is the scan's answer for that cell |
| Fleet.AnswerAtCell | battle_functions.py:143-146 | the answer for row `row`, column `column` is `ship_size` of `change((column, row))` |
| Fleet.NoShipAtCell | battle_functions.py:144-145 | a cell without a ship part answers 0 |
| Fleet.CensusStep | battle_functions.py:145-152 | cells that are not ships, and ships whose first member is used, are skipped; a new ship of a size outside the keys fails the census; otherwise its size is counted and its members become used |
| Fleet.AddTallyCons | battle_functions.py:149 | counting one ship first and then the rest gives the same counts as tallying them together |
| Fleet.AllSizedCons | battle_functions.py:149-152 | a list of ships has sizes 1..4 iff its first ship does and the rest do |
| Fleet.Counted | battle_functions.py:147-150 | every ship the census counts has at least one member |
| Fleet.CensusTally | battle_functions.py:137-155 | the census succeeds iff every counted ship has size 1..4, and then it yields the counts tallied over the counted ships |
| Fleet.TallySums | battle_functions.py:137-155 | the number of counted ships and their total size follow from the per-size tallies |
| Fleet.TallyIsRequirement | battle_functions.py:137-155 | the tallies equal `{4: 1, 3: 2, 2: 3, 1: 4}` exactly when the fleet has one 4-, two 3-, three 2- and four 1-ships |
| Fleet.CensusMeaning | battle_functions.py:137-155 | the census yields the requirement iff all counted ships have size 1..4 and form the required fleet |
| Fleet.FleetValidMeaning | battle_functions.py:130-155 | `is_valid` holds iff the counted ships have sizes 1..4 and match the requirement; a valid field then has ten ships with twenty parts |
| Fleet.CountedAnswers | battle_functions.py:145-150 | each counted ship is the answer of `ship_size` for one of the scanned cells |
| Fleet.CountedFresh | battle_functions.py:145-150 | a counted ship's first member was not used before, and no later counted ship starts inside an earlier one |
| Fleet.ValidFleetShips | battle_functions.py:130-155 | on a valid field the ten counted ships have distinct first members, sizes 1..4, twenty parts in all; each is straight, lies on ship parts on the board, and has no foreign neighbour with indices in 1..9 |
| Placement.Scale | battle_functions.py:186-187 | a direction component times the step count |
| Placement.StepPoint | battle_functions.py:186-187 | the k-th candidate lies k steps from the start in the chosen direction |
| Placement.GrowsTrans | battle_functions.py:173-206 | growing the field by ship parts is transitive across placements |
| Placement.WrapApart | battle_functions.py:186-201 | two readable indices less than ten apart reach different cells, even through negative indexing |
| Placement.Extend | battle_functions.py:183-193 | the inner loop keeps the longest prefix of the line whose points are each readable, empty and without foreign neighbours; it stops on an IndexError only at an index of 10 or more |
| Placement.LineCellsDistinct | battle_functions.py:185-201 | the points of a completed ship reach distinct cells |
| Placement.PlaceShip | battle_functions.py:174-205 | a placed ship is a straight line of x points on cells without ship parts, with x new ship parts written and nothing else changed; an abandoned attempt writes nothing |
| Placement.Stamp | battle_functions.py:199-201 | the write loop puts a ship part on every cell a point reaches, loses no part, and adds one part per point when the cells were empty |
| Placement.CoversNext | battle_functions.py:199-201 | writing one more point covers exactly the cells covered before plus that point's cell |
| Placement.FreshUncovered | battle_functions.py:179-201 | in a placement of distinct, empty cells, a point's cell is neither written by an earlier point nor already a ship part |
| Placement.PlaceSize | battle_functions.py:173-205 | placing `number` ships of size x adds x times `number` ship parts, and records `number` lines of size x |
| Placement.LaidStep | battle_functions.py:170-173 | placing one size of the order lays that size times its count |
| Placement.RecordedStep | battle_functions.py:169-202 | recording one more size keeps `ships2` holding the required number of lines of each placed size |
| Placement.SizeAt | battle_functions.py:170-172 | each size in the placement order is 1..4, a key of the fleet, with at least one ship |
| Placement.PlaceRound | battle_functions.py:170-202 | one size of the order consumes at least one draw and adds that size times its count of ship parts; the size's lines are then recorded |
| Placement.RecordedAll | battle_functions.py:169-206 | after all four sizes, `ships2[x]` holds as many lines as the fleet asks for size x |
| Placement.GenerateShips | battle_functions.py:158-206 | the whole fleet adds exactly 20 ship parts; `ships2[x]` holds `ships[x]` lines of size x |
| Placement.GenerateField | battle_functions.py:225-253 | a returned field passes `is_valid`, has 20 ship parts, and holds only `'*'` and `'-'` |
| Render.Label | battle_functions.py:217-220 | `str(i + 1)` is one character for rows 1..9 and two for row 10 |
| Render.Join | battle_functions.py:217-220 | joining n cells with spaces gives 2n - 1 characters |
| Render.JoinAt | battle_functions.py:217-220 | cell j of the joined line sits at offset 2j, followed by a space unless it is the last |
| Render.RowLine | battle_functions.py:216-221 | every row line is 23 characters long, newline included |
| Render.Lines | battle_functions.py:216-221 | the first n row lines take 23n characters |
| Render.FieldToStr | battle_functions.py:209-222 | `field_to_str` builds the header followed by one labelled line per row |
| Render.LinesAt | battle_functions.py:216-221 | character m of line k of the rendering is character m of row k's line |
| Render.RenderedAt | battle_functions.py:215-222 | the rendering has 253 characters; character m of the line for row i is character m of that row's line |
| Render.RowCell | battle_functions.py:217-220 | cell j of row i sits at column 3 + 2j of the row's line |
| Render.RenderedLayout | battle_functions.py:215-222 | the rendering is eleven 23-character lines ending in newlines; row i starts with its label i + 1 and shows cell j at column 3 + 2j |
| Render.Parse | battle_functions.py:215-222 | reading the cells of a rendering gives a 10x10 field |
| Render.ParseRendered | battle_functions.py:209-222 | the rendering loses nothing: the field is read back from it exactly |
| Render.Replace | battle_main.py:54 | `str.replace` of one character keeps the length and replaces exactly the matching characters |
| Render.ReplaceConcat | battle_main.py:54 | replacing commutes with concatenation |
| Render.HideShips | battle_main.py:54 | hiding ships yields a 10x10 field |
| Render.ReplaceJoin | battle_main.py:54 | replacing a non-space character commutes with joining cells by spaces |
| Render.ReplaceLines | battle_main.py:54 | replacing `'*'` by `'-'` in the row lines renders the field with its ships hidden |
| Render.HiddenRendering | battle_main.py:50-55 | the view without ships is the rendering of the field with every ship part shown empty, and contains no `'*'` |
| Battle.Ship.constructor | battle_main.py:16-20 | a new ship has the given bow, length and parts and no hits |
| Battle.Ship.DeleteShip | battle_main.py:22-29 | returns the parts iff the hit count equals the length, nothing otherwise |
| Battle.Ship.ShootAt | battle_main.py:31-39 | appends exactly the point to the hits, and reports the parts iff that hit completed the ship |
| Battle.Player.constructor | battle_main.py:222-225 | a player starts with ten ships |
| Battle.OwnerIndex | battle_main.py:69-71 | the first roster index whose parts hold the point, or the roster's length when none does |
| Battle.OwnerFirst | battle_main.py:69-71 | any index with no earlier owner that holds the point is the first owner |
| Battle.Specs | battle_main.py:134 | one (bow, length, parts) description per roster ship |
| Battle.RosterSpecs | battle_main.py:119-134 | the roster has distinct bows, lengths matching parts and parts on the board iff its descriptions do |
| Battle.TowardAll | battle_main.py:91-97 | the eight sink directions reach exactly the eight neighbours of a part |
| Battle.RemoveFirst | battle_main.py:108 | `list.remove` of a ship on the roster drops exactly one element, the first equal to the ship |
| Battle.RemoveFirstAt | battle_main.py:108 | removing the ship at index i, when no earlier element equals it, leaves the roster without index i |
| Battle.Bows | battle_main.py:119-121 | one bow per roster ship |
| Battle.StatesStart | battle_main.py:94-97 | before any part or direction is processed, the field is as it was |
| Battle.TowardStep | battle_main.py:97-107 | processing one more direction adds exactly the neighbour it reaches |
| Battle.AroundStep | battle_main.py:97-107 | one more direction marks its neighbour `'X'` when it is on the board and not a part, and changes nothing else |
| Board.ChangeBack | battle_main.py:99-100 | rebuilding a point from its own indices gives the point back |
| Battle.NearStep | battle_main.py:95-107 | a cell near the first n + 1 parts is near the first n or next to part n |
| Battle.SinkStep | battle_main.py:95-107 | sinking one more part marks it `'Y'` and then marks its water neighbours `'X'` |
| Battle.CoveredMark | battle_main.py:79 | overwriting a cell with a mark other than `'*'` keeps every ship part owned |
| Battle.CoveredSunk | battle_main.py:94-109 | after a ship sinks and leaves the roster, the roster keeps distinct bows and every remaining ship part still has an owner |
| Battle.CoveredOwner | battle_main.py:88-93 | on a field whose ship parts all have owners, `_find_ship_for_position` finds a ship for every shot on `'*'` |
| Battle.RemovedRoster | battle_main.py:108 | removing one ship keeps the roster's bows distinct and its lengths matching its parts on the board |
| Battle.SunkShipPart | battle_main.py:94-107 | a `'*'` left after a sinking was `'*'` before and is not a part of the sunk ship |
| Battle.AppendShip | battle_main.py:134 | appending a ship appends its description and its bow |
| Battle.AddedFacts | battle_main.py:128-134 | the ships the scan adds have distinct new bows, lengths 1.. matching their parts, and parts on the board holding ship parts |
| Battle.AddedCons | battle_main.py:132-134 | adding one more ship with a new bow keeps the descriptions in shape |
| Battle.AppendStep | battle_main.py:133-134 | appending the ship for a new bow moves its description from the pending scan to the roster |
| Battle.AddedRoster | battle_main.py:123-134 | `_add_ships` keeps the roster in shape and places every new ship on ship parts |
| Battle.JoinedRoster | battle_main.py:132-134 | appending ships with new bows, lengths matching parts on the board, keeps the roster in shape |
| Battle.AnswerShip | battle_main.py:130-132 | a ship found on the field has at least one part, size equal to its part count, and every part is an on-board `'*'` |
| Battle.ScannedAll | battle_main.py:128-134 | when the scan has passed all hundred cells, the roster is exactly the ships it collected |
| Battle.CleanExtend | battle_main.py:128-131 | a range of cells stays free of shapes with foreign neighbours when one more cell is added iff that cell is free of one |
| Battle.CleanJoin | battle_main.py:128-131 | two adjacent ranges of cells are free of shapes with foreign neighbours iff their union is |
| Battle.SpecsPlaced | battle_main.py:128-134 | descriptions whose parts lie on ship parts place the ships they describe |
| Battle.SpecsJoin | battle_main.py:133-134 | descriptions in shape with bows outside the earlier ones join into descriptions in shape |
| Battle.ShipCell | battle_main.py:130-132 | a `'*'` cell answers a ship of one or more on-board parts with size equal to their count; any other cell answers 0 |
| Battle.AddedStep | battle_main.py:130-134 | the scan step at one cell adds the ship exactly when its bow is new |
| Battle.Field.Empty | battle_main.py:46-47 | a new field starts with an empty roster |
| Battle.Field.FieldWithShips | battle_main.py:57-61 | the view with ships is the rendering of the field |
| Battle.Field.FieldWithoutShips | battle_main.py:50-55 | the view without ships is the rendering with ships hidden, and shows no `'*'` |
| Battle.Field.FindShipForPosition | battle_main.py:63-71 | returns the first roster ship holding the position, or None when no ship holds it |
| Battle.Field.MarkCell | battle_main.py:73-79 | exactly the cell at `[row - 1][ord(col) - 65]`, with negative indexing, takes the mark; the roster is unchanged |
| Battle.Field.MarkAround | battle_main.py:97-107 | each neighbour with column 0..9 and row 1..10 that is not a part becomes `'X'`; nothing else changes |
| Battle.Field.MarkDirection | battle_main.py:97-107 | one direction marks its neighbour `'X'` when it is on the board and not a part of the ship, and leaves everything else as it was |
| Battle.Field.SinkShip | battle_main.py:95-107 | every part becomes `'Y'` and its water neighbours `'X'`, in the order the source visits them |
| Battle.Field.Destroy | battle_main.py:94-109 | the field shows the ship sunk, the ship leaves the roster, and the player has one ship fewer |
| Battle.Field.ShootAt | battle_main.py:81-112 | a shot on `'*'` marks it `'+'`, records the hit on the first owning ship only, and returns True; if the ship is then complete it is sunk, removed and the player loses a ship. A shot on any other cell only marks it `'X'` and records no hit. An owner is needed only for a shot on `'*'`, and a field whose ship parts all have owners keeps that property |
| Battle.Field.AddCell | battle_main.py:130-134 | at a `'*'` cell a ship is added iff its bow is new; a ship with a foreign neighbour is the TypeError |
| Battle.Field.AddRow | battle_main.py:129-134 | one row of the scan adds the new-bowed ships of that row in order |
| Battle.Field.AddShape | battle_main.py:132-134 | a found ship joins the roster exactly when no roster ship has its bow |
| Battle.Field.AddRows | battle_main.py:128-134 | the row loop raises the TypeError exactly when some cell's shape has foreign neighbours; otherwise it appends exactly the new-bowed ships in row-major order |
| Battle.Field.AddShips | battle_main.py:123-134 | the roster grows by exactly the ships with new bows in row-major order; bows stay distinct and every new ship lies on ship parts |
| Battle.Field.CorrectShips | battle_main.py:183-215 | a returned field passes `is_valid`, has 20 ship parts and only `'*'`/`'-'` cells, and has exactly ten ships with distinct bows built from it |
| Battle.Field.Rebuild | battle_main.py:192-193 | emptying the roster and re-adding fails exactly when some shape has foreign neighbours; otherwise the roster is exactly the new-bowed ships of the field, in shape and on its ship parts |
| Battle.Field.FindShip | battle_main.py:114-121 | true exactly when some roster ship has the bow |
| Battle.NewField | battle_main.py:46-48 | a built field has ten well-formed ships on a valid 20-part field |

## Left out

- The `Game` class (battle_main.py:228-295): console input/output, `exit`, the turn loop and `read_position`.
- `read_file` and the `__main__` blocks: file and console I/O.
- `Player.name` and `Player.own`. Only the `ships` counter takes part in shooting.
- `randrange`: draws come from the parameter `rng`, and nothing is claimed about their distribution.
- Termination of the retry loops. A finite `rng` bounds them: when the draws run out, `GenerateField` returns `ok == false` and `CorrectShips` returns `Exhausted`. The source loops forever instead.
- `deepcopy`: fields are values, so copying is implicit.
- Placement.GenerateShips: `field[r][c] = '*'` updates the list in place. The model returns the new field as a value. No other reference to the list exists (the caller passes a `deepcopy`), so the outcome is the same.
- The `for i in range(20)` repetition in `correct_ships` recomputes the same deterministic result, so one pass is modelled.
- `Field._generate_ships` / `Field.generate_field` duplicate `generate_ships` / `generate_field` (only `ships2` is missing). Both are modelled by `Placement.GenerateShips` / `Placement.GenerateField`.
- `is_valid`'s `else: return False` branch cannot be taken on a 10x10 field, so it is not modelled.
- Shapes.AxisShape: when the two axes are equally long, the contract says only that one of them is kept. The body follows Python's list comparison over members sorted ascending. The source's order comes from `list(set(...))` and is unspecified.
- Battle.Field.CorrectShips: a `ship_size` result of False makes `_add_ships` raise a TypeError. That crash is modelled as the outcome `TypeError`.
- Battle.Field.ShootAt: a shot on a `'*'` that no roster ship holds makes the source call `shoot_at` on None and raise an AttributeError (battle_main.py:89, 93), so the model requires an owner for the cell shot at. That every ship part of the field `correct_ships` builds has an owner is not proved. `Battle.CoveredOwner` shows that such a field meets the requirement for every shot, and every shot keeps all ship parts owned.
- Battle.RemoveFirst: `list.remove` raises a ValueError when the ship is not on the roster. The model returns the roster unchanged in that case instead. `Battle.Field.Destroy` removes only a ship taken from the roster, so the case never arises.
- Fleet.IsValid: the model lists a ship's members in ascending order, so the member `is_valid` checks against `used` (battle_functions.py:147) is always the least one. In the source the list comes from `list(set(...))` (battle_functions.py:112-113), whose order depends on string hashing. Where the ship a cell yields overlaps another shape, the source's verdict can therefore vary between runs, while the model gives the verdict for ascending order.
- Fleet.CountShape: the first member it tests is the least member, for the reason given under `Fleet.IsValid`.
- Battle.Field.AddShips: the bow is `min` of the members and does not depend on their order. But when the two axes are equally long, `max` compares the member lists, so the shape a cell yields, and with it the roster and which ship owns a cell, can vary with set order in the source. The model fixes the ascending order.
