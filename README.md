# PropickFix in Dafny

A model of the prospecting pick that the PropickFix game modification
installs in a voxel survival game. The item offers a tool-mode menu and,
when the player finishes breaking a block with it, runs one of three probes:

- density search (mode 0, and the fallback for any other number);
- core sample (mode 1);
- node search (mode 2, offered only while the world's
  `propickNodeSearchRadius` setting is positive).

The only new algorithm is the core sample. It walks 64 blocks in a
straight line away from the face that was hit, tallies the ore types it
finds, and tells the player which ores it found, the most frequent first.

Modules:

- `Wrappers` (`wrappers.dfy`): the `Option` type used for the source's
  nullable references.
- `Host` (`host.dfy`): everything the host game provides. Positions, the
  host's mutable `BlockPos`, block types (material, variants, static
  attributes), the read-only world as a function from position to block,
  the breaking entity, the report lines, and the calls a probe makes back
  into the host (`Event`), in order.
- `OreTally` (`ore_tally.dfy`): the tally dictionary, kept as a sequence of
  entries in insertion order, and the stable descending sort by count.
- `ToolModes` (`tool_modes.dfy`): the menu built on load, and reading the
  stored mode number against it.
- `CoreSample` (`core_sample.dfy`): the walk, the tally it builds, the
  report, and `ProbeCoreSampleMode`. The method's 64-step loop is
  `TakeCoreSample`: it moves a copied `BlockPos` in place (the face switch
  is `MoveAlong`) and updates the dictionary. The whole method is proved
  equal to the specification function `CoreSampleEvents`.
- `PropickFix` (`propick_fix.dfy`): the `ItemPropickFix` class
  (`OnLoaded`, `OnBlockBrokenWith`), the item slot it wears down, the
  choice of probe and its damage, and lemmas relating the stored mode, the
  menu and the radius.

Three points where the code's behaviour is easy to misread:

- Reading the stored mode has no lower clamp
  (`PropickFix/ItemPropickFix.cs:73`). A negative number is returned
  unchanged and selects density search; it is not clamped into range.
- `OnBlockBrokenWith` casts the breaking entity to a player entity without
  a check (`PropickFix/ItemPropickFix.cs:89`). A non-player entity
  therefore never reaches the silent core-sample path. The model makes
  "the entity is a player entity" a precondition of `OnBlockBrokenWith`.
  `ProbeCoreSampleMode` on its own still handles every entity, as its code
  does.
- The broken block is notified of its removal before either gate, with a
  drop multiplier of 0 (`PropickFix/ItemPropickFix.cs:122`), so a core
  sample always makes that one host call, even when it reports nothing, and
  the block yields no drops. The propickable gate reads the block as it was
  before the notification; the walk that follows reads the world as the
  notification left it. The model takes both worlds as parameters.

## Model

| member | source | states |
|---|---|---|
| `ToolModes.AvailableModes` | PropickFix/ItemPropickFix.cs:31-44 | The menu has 3 entries exactly when the radius is positive and 2 otherwise. Density always comes first and core sample second; node search is third when present. |
| `ToolModes.ModeCodesDistinct` | PropickFix/ItemPropickFix.cs:34-43 | The menu codes are pairwise distinct, so each menu position names one probe. |
| `ToolModes.GetToolMode` | PropickFix/ItemPropickFix.cs:71-74 | The resolved mode is at most the last menu position and at most the stored number, and equals one of the two (their minimum). |
| `ToolModes.GetToolModeRange` | PropickFix/ItemPropickFix.cs:73 | A non-negative stored number resolves to a valid menu position. A number below the menu length is returned unchanged. A negative number passes through, because there is no lower clamp. |
| `PropickFix.SelectProbe` | PropickFix/ItemPropickFix.cs:93-105 | Node search runs exactly for mode 2 with a positive radius. Core sample runs exactly for mode 1. Density search runs in every other case, including mode 2 with a radius of 0 or less. |
| `PropickFix.ProbeDamage` | PropickFix/ItemPropickFix.cs:91-96 | The damage is 2 exactly for node search and 1 for the other two probes. |
| `PropickFix.DamagedByBreaking` | PropickFix/ItemPropickFix.cs:108 | Wear applies exactly when damage sources are configured and they include block breaking. |
| `PropickFix.ItemPropickFix.OnLoaded` | PropickFix/ItemPropickFix.cs:29-61 | After loading, the menu field holds the menu for the configured radius. |
| `PropickFix.ItemPropickFix.OnBlockBrokenWith` | PropickFix/ItemPropickFix.cs:87-114 | Runs the probe selected from the resolved mode and the current radius, with that probe's effects. Adds the probe's damage to the slot's wear only when block breaking damages the item, and leaves the wear unchanged otherwise. Keeps the stored mode and always returns true. |
| `PropickFix.ProbeForStoredMode` | PropickFix/ItemPropickFix.cs:89-105 | With the menu built from the current radius, the probe depends on the stored number alone. 2 or more with a positive radius gives node search; otherwise 1 or more gives core sample; anything below 1 gives density search. |
| `PropickFix.ProbeMatchesMenu` | PropickFix/ItemPropickFix.cs:93-105 | For a non-negative stored number, the probe that runs is the one the selected menu entry's code names: density, core or node. |
| `PropickFix.StaleNodeModeFallsBack` | PropickFix/ItemPropickFix.cs:93 | A 3-entry menu loaded while the radius was positive, read after the radius dropped to 0 or below: stored mode 2 or more resolves to 2, runs density search, and wears the tool by 1. |
| `PropickFix.NegativeModeIsDensity` | PropickFix/ItemPropickFix.cs:73 | A negative stored number is not raised to 0; on a non-empty menu it is kept and selects density search. |
| `CoreSample.WalkAxis` | PropickFix/ItemPropickFix.cs:152-172 | After n steps the position has moved n units along one axis and the other two coordinates are unchanged. North is z+, south z-, east x-, west x+, up y- and down y+. An unrecognised face code leaves the position at the start. |
| `CoreSample.WalkDistinct` | PropickFix/ItemPropickFix.cs:137-172 | With a recognised face, no position is visited twice. |
| `CoreSample.SampleReadsWalkOnly` | PropickFix/ItemPropickFix.cs:137-140 | The walk starts at the broken block's position. Two worlds that agree on the 64 walk positions give the same tally. |
| `CoreSample.FoundHits` | PropickFix/ItemPropickFix.cs:140-144 | At most one key is found per visited position. Each key is found as often as visited positions yield it, and every key starts with "ore-". |
| `CoreSample.IsPropickable` | PropickFix/ItemPropickFix.cs:194-197 | A block is propickable exactly when it has attributes and its "propickable" attribute is the boolean true. A missing or non-boolean attribute reads as false. |
| `CoreSample.ProbeCoreSampleMode` | PropickFix/ItemPropickFix.cs:116-192 | The notification with drop multiplier 0, the two gates on the block read before it, the 64-iteration loop over the world as left after it (stepping a copied position in place and updating the dictionary), and the messages produce exactly the events of the specification `CoreSampleEvents`. |
| `CoreSample.TakeCoreSample` | PropickFix/ItemPropickFix.cs:135-173 | The loop, which moves a copy of the start position and bumps the dictionary for every ore found, ends with the tally of the 64-block walk, `SampleTally`. |
| `CoreSample.MoveAlong` | PropickFix/ItemPropickFix.cs:152-172 | The face switch moves the position in place by one face step, and leaves it where it is for an unrecognised face code. |
| `CoreSample.CoreSampleGating` | PropickFix/ItemPropickFix.cs:118-129 | The broken block is notified first, with its position, the resolved player and drop multiplier 0. Report lines follow exactly when the block is propickable and the player is a server player, and they begin with the header. A non-player entity gets only the notification. |
| `CoreSample.GateReadsBrokenBlockOnly` | PropickFix/ItemPropickFix.cs:120-124 | Of the world before the notification, only the broken block is read: two such worlds that agree on it give the same events. |
| `CoreSample.HitsAfterBreak` | PropickFix/ItemPropickFix.cs:122-144 | With a recognised face, if the notification leaves a non-ore block at the broken position and changes nothing else, each key is found once less than in the unchanged world exactly when the broken block was an ore of that key, and as often otherwise. |
| `CoreSample.BrokenOreCountedIfKept` | PropickFix/ItemPropickFix.cs:137-149 | If the world the walk reads still holds an ore at the broken position, that ore is found at least once and its tally count is at least 1. |
| `CoreSample.SampleTallySpec` | PropickFix/ItemPropickFix.cs:135-150 | The tally has distinct keys. Each key's count equals the number of visited positions holding an ore of that type; every count is at least 1 and the counts sum to at most 64. Keys are in order of first discovery along the walk. |
| `CoreSample.ReportSpec` | PropickFix/ItemPropickFix.cs:175-191 | The first line is the header. "No ore node found" follows exactly when the tally is empty; otherwise "found the following ore nodes" follows, then one line per tally key. Each key line gives its ore's count along the walk. Counts never increase, no key repeats, and entries of equal count keep the tally's order. |
| `CoreSample.ReportOfTally` | PropickFix/ItemPropickFix.cs:177-191 | For any tally with distinct keys and positive counts, the report has the shape above. Each entry line carries its key's tally count, and every key in the tally gets a line. |
| `CoreSample.SortedEntries` | PropickFix/ItemPropickFix.cs:175 | The sorted tally holds exactly the tally's entries, with distinct keys and counts non-increasing. |
| `CoreSample.NoOreReport` | PropickFix/ItemPropickFix.cs:177-179 | With no ore along the walk, the report is the header followed by "no ore node found". |
| `CoreSample.SingleOreReport` | PropickFix/ItemPropickFix.cs:180-190 | With a single ore type along the walk, found at m positions, the report is the header, "found the following ore nodes", and one line for that ore with count m. |
| `OreTally.Find` | PropickFix/ItemPropickFix.cs:147 | The dictionary lookup finds the entry for a key exactly when the key is present, and reports absence otherwise. |
| `OreTally.StoreSpec` | PropickFix/ItemPropickFix.cs:146-149 | Assigning a count gives that key the new count. Every other key keeps its count and its place. The length is unchanged for a present key and grows by one for a new key, which is appended last, the keys stay distinct, and the sum changes by the difference. |
| `OreTally.TallyOfSpec` | PropickFix/ItemPropickFix.cs:135-150 | Bumping each found key in turn yields one entry per distinct key, in order of first occurrence. Each entry counts its key's occurrences, each count is at least 1, and the counts sum to the number of keys. |
| `OreTally.SortSpec` | PropickFix/ItemPropickFix.cs:175 | The sort by count, descending, gives non-increasing counts and a permutation of the tally. For every count, the entries with that count appear in the tally's order, so the sort is stable. |
| `OreTally.SortUnique` | PropickFix/ItemPropickFix.cs:175 | Those two properties (non-increasing counts, and the tally's order within every count) determine the sorted tally uniquely. |
| `OreTally.SortDistinct` | PropickFix/ItemPropickFix.cs:175 | Sorting a tally with distinct keys keeps the keys distinct. |

## Left out

- `OnBlockBreaking` (PropickFix/ItemPropickFix.cs:76-85): node search halves the mining speed with floating-point arithmetic. That arithmetic is applied on top of an inherited method whose source is not part of this model.
- The process-wide mode cache (`ObjectCacheUtil.GetOrCreate`): `OnLoaded` models a first load, which builds the menu from the radius. A later load that reuses a cached menu from another configuration is not modelled.
- Icons, `TexturePremultipliedAlpha`, client-side setup and the call to `base.OnLoaded`: these are rendering and host set-up with no effect on the logic.
- Localisation (`Lang.Get`, `Lang.GetL`), chat transport (`SendMessage`) and the quantity-band text (`resultTextByQuantity`): report lines are tokens, and an entry line carries its ore key and count.
- `ProbeBlockDensityMode` and `ProbeBlockNodeMode`: these are inherited and not part of this model. Each is a single `DensityProbe` or `NodeProbe` event.
- `Block.OnBlockBroken`: the host callback is a `BlockBroken` event carrying the position, the resolved player and the drop multiplier 0. What the callback does to the world is host code and is not interpreted: the walk reads a second world parameter, `broken`, that the model leaves unconstrained.
- `PlayerByUid`: the lookup's result is part of the `EntityPlayer` value.
- `DamageItem`: durability bookkeeping is a wear counter on the slot.
- Configuration and item attributes: the radius is an integer parameter, because parsing the configuration string is host code. The slot holds the stored mode as an integer; the host reads an absent attribute as 0.
- `isPropickable` on a null block: the world always returns a block, so the null case does not arise in the model. JSON values other than a literal boolean read as the default, false; the host's own conversions are not modelled.
- The unchecked cast at PropickFix/ItemPropickFix.cs:89: a non-player entity is excluded by a precondition of `OnBlockBrokenWith`, not modelled as a fault.
- `OnBlockBrokenWith` before `OnLoaded`: reading the stored mode dereferences the menu (PropickFix/ItemPropickFix.cs:73), which is null until the item has loaded. The precondition `toolModes.Some?` excludes that fault instead of modelling it.
- `GetToolModes` (PropickFix/ItemPropickFix.cs:66-69) only returns the menu field; the model reads the field `toolModes` directly.
- `PropickFix/PropickFixModSystem.cs`: it only registers the item class with the host.
- Dictionary enumeration order: the tally is enumerated in insertion order. That is the order of a dictionary that is only ever added to, as this one is.
- Integer width: positions are unbounded, so 32-bit wrap-around at the edge of the world is not modelled (the walk moves at most 63 blocks). Counts are at most 64 and cannot overflow.
