# The reward game and backend lookups of LimbusLocalizationManager, in Dafny

This project models the "glupo" reward mini-game of LimbusLocalizationManager and two
small pieces of its Rust backend, and proves properties of the model.

The reward game is modelled in these parts:

- **Save record.** The versioned save record runs v1 → v2 (`ConfigV1`, `ConfigV2`, `ConfigFormat`).
- **Store.** The store keeps the economy (`Economy`, `StoreRules`, and the class `Store.GlupoStore`):
  - a balance capped by the risk tier;
  - effective stats as a clamped sum, and the stats derived from them, including the critical chance's halving loop;
  - stat and risk upgrades;
  - weapon and armor purchases;
  - the prestige reset;
  - the trinket gacha.
- **Item registry.** Eight weapons and six armors (`Weapons`, `Armors`, one module per item) expose their hooks as functions. Each hook returns the list of calls it makes on the store and the game (`Hooks.Effect`).
- **Game object.** `Game.Game` holds:
  - sanity, with its panic and regeneration timers (`Sanity`);
  - the hit rule, the box tier, and the hurt and idle cues (`GameRules`);
  - the particle loop and its destroy callbacks (`Particles`, `GameWorld`).

  Every method of `Game.Game` is proved to move the game exactly as a pure rule on one value (`GameWorld.World`) says. The game's invariant is proved to hold across every rule. The invariant says:
  - the save record is consistent and within its cap;
  - one panic step is pending exactly while in panic;
  - at most one regeneration is pending;
  - the temporary bonus equals what the pending reversals and the live Red Eyes spiders hold.
- **Trinket chain.** The pendant chain of the weapon sprite is a set of classes over points and segments (`WeaponSprite`).

From the backend, `Settings` models the settings file's defaults, version migration and load decision. `Steam` models the `libraryfolders.vdf` / `appmanifest` line parsing and library search, the game folder check, and the running-process test.

Randomness, the clock and the file system are inputs:
- every `Math.random()` is a draw in [0, 1) passed as a parameter;
- `Date.now()` and animation timestamps are real parameters;
- `setTimeout` is an explicit list of pending timers with ids and deadlines;
- file existence and contents are functions from paths to answers.

## Model

| member | source | states |
|---|---|---|
| Types.RiskIndex | src/stores/glupo/types.ts:4-12 | each risk tier has one of five positions, in the declaration order zayin, teth, he, waw, aleph |
| Types.RiskAt | src/stores/glupo/types.ts:4-12 | the tier at a position below five is the one whose position it is (inverse of `RiskIndex`) |
| Types.RiskLevelsAreFive | src/stores/glupo/types.ts:4-10 | there are exactly five tiers: position and persisted name each identify a tier |
| Types.Stats.With | src/stores/glupo/store.ts:344-349 | replacing one stat axis sets that axis and leaves the other three as they were |
| Types.Stats.ClampNonNeg | src/stores/glupo/store.ts:207-209 | every axis below zero becomes zero, every other axis is kept |
| Types.PlusIsAxisWise | src/stores/glupo/store.ts:169-173 | adding bonus stats adds axis by axis, and the order of the two records does not matter |
| Types.NegCancels | src/stores/glupo/store.ts:169-173 | adding a bonus and then its negation restores the record exactly |
| Types.PlusAssoc | src/stores/glupo/store.ts:169-173 | successive bonuses may be regrouped |
| Types.PlusZero | src/stores/glupo/store.ts:22-27 | the zero record is neutral for bonus addition |
| Types.StatsHaveFourAxes | src/stores/glupo/types.ts:14-19 | two stat records are equal exactly when they agree on the four axes |
| Types.Floor | src/stores/glupo/store.ts:222-223 | `Math.floor`: the result is the greatest integer not above its argument |
| Types.Ceil | src/stores/glupo/game/game.ts:150-159 | `Math.ceil`: the result is the least integer not below its argument |
| Utils.Scaled | src/stores/glupo/utils.ts:2 | a draw in [0, 1) scales a width `w` to a value in [0, w), and zero width gives zero |
| Utils.RandomRange | src/stores/glupo/utils.ts:1-3 | the result lies in [min, max) when min < max, and is min when they are equal |
| Utils.RandomRangeInt | src/stores/glupo/utils.ts:5-7 | the result is an integer in [min, max], both ends included |
| Utils.RandomRangeIntReachesAll | src/stores/glupo/utils.ts:5-7 | every integer of [min, max] is the result of some draw |
| Utils.Choose | src/stores/glupo/utils.ts:9-11 | a non-empty list yields one of its elements; an empty list yields nothing |
| Utils.ChooseReachesAll | src/stores/glupo/utils.ts:9-11 | every element of a non-empty list is chosen by some draw |
| Utils.FirstReached | src/stores/glupo/utils.ts:25-31 | the loop stops at the first item whose weight covers what remains of the draw; every earlier item's weight fell short |
| Utils.NoneReachedMeansAboveTotal | src/stores/glupo/utils.ts:25-33 | when the loop runs off the end, the draw exceeded the total weight (or the list was empty) |
| Utils.FallbackUnreachable | src/stores/glupo/utils.ts:19-33 | with a non-negative total and a draw of `u * total`, some item is always reached, so the final fall-back to the last item never runs |
| Utils.Weights | src/stores/glupo/utils.ts:14-17 | the weight list pairs each item with its weight, in order |
| Utils.WeightedPick | src/stores/glupo/utils.ts:13-34 | a non-empty list yields one of its items; an empty one yields nothing |
| Utils.WeightedPickReaches | src/stores/glupo/utils.ts:19-31 | with non-negative weights the pick is the first item reached by the draw, and every item before it was passed over |
| Utils.WeightedChoose | src/stores/glupo/utils.ts:13-34 | the two loops (summing, then walking the items) return exactly the item `WeightedPick` defines |
| Utils.InsertAddsOne | src/stores/glupo/store.ts:413-415 | insertion (in front of equal keys) adds exactly the new element and puts either it or the old front first |
| Utils.InsertKeepsOrder | src/stores/glupo/store.ts:413-415 | inserting into a list ordered by cost keeps it ordered |
| Utils.SortByKeySorts | src/stores/glupo/store.ts:413-415 | sorting by cost (`a.cost - b.cost`) orders the list and is a permutation of it |
| Utils.SortCons | src/stores/glupo/store.ts:413-415 | an element costing no more than everything else lands in front of the sorted rest |
| Utils.InsertWithKey | src/stores/glupo/store.ts:413-415 | inserting an element puts it ahead of every element of its own cost and keeps the order among the elements of every cost |
| Utils.SortIsStable | src/stores/glupo/store.ts:413-415 | the sort is stable, as `Array.prototype.sort` is: for every cost, the elements of that cost come out in their input order |
| Economy.RiskBalanceLimit | src/stores/glupo/store.ts:353-361 | every tier but aleph has a balance cap; aleph has none |
| Economy.RiskUpgradeCost | src/stores/glupo/store.ts:363-373 | every tier but aleph has a positive upgrade price; aleph has none |
| Economy.NextRiskLevel | src/stores/glupo/store.ts:381-391 | the next tier is the one at the following position; aleph has none |
| Economy.RiskTable | src/stores/glupo/store.ts:353-373 | leaving a tier costs exactly its cap, caps rise strictly from tier to tier, and the four finite caps are 500, 7 500, 75 000 and 750 000 |
| Economy.CappedAdd | src/stores/glupo/store.ts:155-161 | the new balance is the sum, cut down to the cap when there is one; it is never above the cap or the sum |
| Economy.StatUpgradeCost | src/stores/glupo/store.ts:290-315 | a price exists exactly for the levels 0..9 of the table, and it is non-negative |
| Economy.StatPricesRise | src/stores/glupo/store.ts:290-304 | prices rise strictly with the level; the table has ten levels from 0 to 2 500 000 |
| Economy.PlayerStats | src/stores/glupo/store.ts:186-212 | each axis is base + weapon + armor + bonus, clamped below at zero |
| Economy.HarvestArmorZeroesPrudence | src/stores/glupo/store.ts:186-212 | with the Harvest armor (prudence -999) the effective prudence is zero and maximum sanity is 60 |
| Economy.CritUnits | src/stores/glupo/store.ts:231-255 | the critical chance (in 1/8 percent) lies between 0 and 95 percent |
| Economy.CritChanceFacts | src/stores/glupo/store.ts:231-255 | temperance 0 gives no chance, 1 gives 5 percent, 20 gives 75 percent, and the chance never falls as temperance rises |
| Economy.CriticalChanceUnits | src/stores/glupo/store.ts:231-253 | the halving-step loop with its early exit at 95 computes `CritUnits` |
| Economy.BoxRange | src/stores/glupo/store.ts:222-223 | a hit gives at least one box, and the minimum never exceeds the maximum |
| Economy.RegenerationDelay | src/stores/glupo/store.ts:227 | prudence shortens the regeneration delay within (0, 2500] ms |
| Economy.PanicRestoreDelay | src/stores/glupo/store.ts:228 | prudence shortens the panic restore step within (0, 300] ms |
| Economy.RealCooldown | src/stores/glupo/store.ts:259-261 | justice divides the cooldown by 1 + 0.1 per point, so it is positive and at most the weapon's |
| Economy.Derive | src/stores/glupo/store.ts:214-288 | the derived stats respect their ranges (boxes, sanity in steps of 20 from 60, delays, chance at most 0.95, cooldown) and take the weapon's multiplier and box price |
| Economy.DeriveReadsAxes | src/stores/glupo/store.ts:221-261 | each derived stat is the source's formula in the effective stat it depends on |
| Economy.DefaultDerived | src/stores/glupo/store.ts:214-288 | the starting save gives 1 to 2 boxes per hit, 140 sanity, a cooldown modifier of 1.2 and a box price of 1 |
| Economy.WeaponsShop | src/stores/glupo/store.ts:410-422 | every weapon once, cheapest first, flagged bought exactly when owned and selected exactly when equipped |
| Economy.ArmorShop | src/stores/glupo/store.ts:424-434 | every armor once, cheapest first, flagged bought exactly when owned and selected exactly when equipped |
| Economy.ShopSelectsOneOwned | src/stores/glupo/store.ts:410-434 | in a consistent save each shop has exactly one selected entry, and it is bought |
| Economy.WeaponShopIndex | src/stores/glupo/store.ts:410-422 | every weapon has a place in the shop order |
| Economy.SampleRarity | src/stores/glupo/store.ts:556-562 | a rarity draw is common up to 0.5, rare up to 0.8, and special above |
| Economy.PickOfRarity | src/stores/glupo/store.ts:590-595 | the trinket picked for a rarity is one of that rarity's group |
| Economy.SampleTrinket | src/stores/glupo/store.ts:590-595 | a reel sample has the rarity its first draw selected |
| Store.GlupoStore.constructor | src/stores/glupo/store.ts:19-27 | a store over a loaded record starts with a zero bonus and satisfies its invariant |
| Store.GlupoStore.AddBalance | src/stores/glupo/store.ts:155-161 | the record becomes `StoreRules.AddBalance` of the old one, the bonus is unchanged, and the balance stays within its tier's cap |
| Store.GlupoStore.AddBoxes | src/stores/glupo/store.ts:163-167 | the record becomes `StoreRules.AddBoxes` of the old one, the bonus is unchanged, and the invariant is kept |
| Store.GlupoStore.AddBonusStats | src/stores/glupo/store.ts:169-173 | the bonus gains the delta axis by axis; the record is unchanged |
| Store.GlupoStore.UpgradeStats | src/stores/glupo/store.ts:332-351 | the record becomes `StoreRules.UpgradeStats` of the old one, and the invariant is kept |
| Store.GlupoStore.UpgradeRisk | src/stores/glupo/store.ts:393-408 | the record becomes `StoreRules.UpgradeRisk` of the old one, and the invariant is kept |
| Store.GlupoStore.SelectWeapon | src/stores/glupo/store.ts:436-444 | the record becomes `StoreRules.SelectWeapon` of the old one, and the invariant is kept |
| Store.GlupoStore.BuyWeapon | src/stores/glupo/store.ts:446-462 | the record becomes `StoreRules.BuyWeapon` of the old one, and the invariant is kept |
| Store.GlupoStore.SelectArmor | src/stores/glupo/store.ts:464-472 | the record becomes `StoreRules.SelectArmor` of the old one, and the invariant is kept |
| Store.GlupoStore.BuyArmor | src/stores/glupo/store.ts:474-490 | the record becomes `StoreRules.BuyArmor` of the old one, and the invariant is kept |
| Store.GlupoStore.BuyReset | src/stores/glupo/store.ts:523-550 | the record becomes `StoreRules.BuyReset` of the old one, and the invariant is kept |
| Store.GlupoStore.SelectTrinket | src/stores/glupo/store.ts:659-675 | the record becomes `StoreRules.SelectTrinket` of the old one, and the invariant is kept |
| Store.GlupoStore.CreateTrinketReel | src/stores/glupo/store.ts:582-603 | the reel is the samples (one per draw pair) pushed `repeats` times over |
| Store.GlupoStore.BuyTrinketRoll | src/stores/glupo/store.ts:605-635 | without three shards nothing happens and nothing is returned; otherwise the 300-cell reel is the 100 samples three times, the winner sits at an index in [75, 225], and the record is updated by `StoreRules.AfterRoll` |
| StoreRules.AddBalance | src/stores/glupo/store.ts:155-161 | only the balance changes; it rises by the amount, cut to the tier's cap when there is one, and ends within the cap |
| StoreRules.BoxCredit | src/stores/glupo/store.ts:165 | the credit is the floor of count × multiplier × box price |
| StoreRules.AddBoxes | src/stores/glupo/store.ts:163-167 | boxes are credited through `addBalance` at the selected weapon's box price |
| StoreRules.MagicBulletBoxesPayNothing | src/stores/glupo/store.ts:163-167 | with Magic Bullet selected (box price 0) boxes leave a balance within its cap unchanged |
| StoreRules.UpgradeStats | src/stores/glupo/store.ts:332-351 | without a price or the balance to pay it nothing changes; otherwise the price is paid, that stat rises by one and nothing else changes |
| StoreRules.UpgradeStatsGuard | src/stores/glupo/store.ts:317-351 | `canUpgradeStats` holds exactly when the upgrade changes the record; it keeps the cap and the record's consistency, and a stat at level 10 cannot rise |
| StoreRules.UpgradeRisk | src/stores/glupo/store.ts:393-408 | at aleph or short of the price nothing changes; otherwise the price is paid and the tier moves one step up |
| StoreRules.RiskUpgradeNeedsFullBalance | src/stores/glupo/store.ts:175-184 | since the price is the cap, within the cap the tier rises exactly when the balance is full; the balance then drops to 0, and cap and consistency are kept |
| StoreRules.SelectWeapon | src/stores/glupo/store.ts:436-444 | an owned weapon becomes selected; an unowned one changes nothing; consistency is kept |
| StoreRules.BuyWeapon | src/stores/glupo/store.ts:446-462 | an owned or unaffordable weapon changes nothing; otherwise its cost is paid and it is appended and selected; consistency and the cap are kept |
| StoreRules.SelectArmor | src/stores/glupo/store.ts:464-472 | an owned armor becomes selected; an unowned one changes nothing; consistency is kept |
| StoreRules.BuyArmor | src/stores/glupo/store.ts:474-490 | an owned or unaffordable armor changes nothing; otherwise its cost is paid and it is appended and selected; consistency and the cap are kept |
| StoreRules.BuyReset | src/stores/glupo/store.ts:519-550 | below 25 000 000 nothing changes; otherwise the record restarts from the default, keeping the trinkets, the trinket selection and the sound setting, with 3 to 15 more shards in steps of 3 and one more loop |
| StoreRules.ResetShardsReachAll | src/stores/glupo/store.ts:542 | every shard bonus 3k for k = 1..5 is the result of some draw |
| StoreRules.ResetOnlyAtAleph | src/stores/glupo/store.ts:353-361 | a balance within its cap can only reach the reset price at aleph |
| StoreRules.AfterRoll | src/stores/glupo/store.ts:623-628 | three shards are spent and the winner is appended to the owned trinkets unless already there; nothing else changes and consistency is kept |
| StoreRules.SelectTrinket | src/stores/glupo/store.ts:659-675 | an unowned trinket changes nothing; the selected one is deselected; any other owned one becomes selected |
| StoreRules.SelectTrinketToggles | src/stores/glupo/store.ts:659-675 | selecting the same owned trinket twice restores the selection |
| StoreRules.ThreeRepeats | src/stores/glupo/store.ts:597-600 | the reel of three repeats has 300 cells, and cell i shows sample i mod 100 |
| StoreRules.ProcessHit | src/stores/glupo/store.ts:125-133 | the effects of a hit are those of the armor's hook followed by the weapon's; no armor has a hit hook |
| StoreRules.ProcessPanic | src/stores/glupo/store.ts:135-143 | panic hooks only set sanity, and only the Penitence and Twilight armors react |
| StoreRules.ProcessPanicEnd | src/stores/glupo/store.ts:145-153 | panic-end hooks only grant temporary bonuses, and only the Smile armor reacts |
| StoreRules.Samples | src/stores/glupo/store.ts:590-595 | one sample per draw pair, each of the rarity its rarity draw selects |
| Trinkets.Ordinal | src/stores/glupo/trinket.ts:3-24 | every trinket has a position in the catalogue, and the catalogue holds it there |
| Trinkets.CatalogueIsComplete | src/stores/glupo/trinket.ts:41-122 | the catalogue lists all twenty trinkets once each, and each image id equals its key |
| Trinkets.OrdinalOfEntry | src/stores/glupo/trinket.ts:3-24 | the position of the trinket at position i is i |
| Trinkets.LexLeTotal | src/stores/glupo/store.ts:576 | any two keys are ordered one way or the other by the string comparison |
| Trinkets.LexLeTransitive | src/stores/glupo/store.ts:576 | the string comparison is transitive |
| Trinkets.InsertBy | src/stores/glupo/store.ts:575-577 | inserting into a list sorted by key keeps it sorted, adds exactly one element and no duplicate |
| Trinkets.SortBy | src/stores/glupo/store.ts:575-577 | sorting by key gives a sorted list with the same elements and the same length, without duplicates if there were none |
| Trinkets.OfRarityKeeps | src/stores/glupo/store.ts:571-573 | filtering keeps exactly the trinkets of that rarity and introduces no duplicate |
| Trinkets.ByRarityPartitions | src/stores/glupo/store.ts:564-580 | each rarity's group holds exactly the trinkets of that rarity, sorted by key, without duplicates, and is never empty |
| Trinkets.OfRarityAppend | src/stores/glupo/store.ts:571-573 | filtering two concatenated lists filters each in turn |
| Trinkets.GroupSizes | src/stores/glupo/trinket.ts:41-122 | the catalogue has ten common, five rare and five special trinkets |
| Weapons.Get | src/stores/glupo/weapon/index.ts:23-32 | each registered weapon carries the id it is registered under (also its image id), its own cost and stat modifier, a hit hook and no panic hooks |
| Weapons.RegistryIsComplete | src/stores/glupo/weapon/index.ts:10-32 | there are eight weapons, each registered once under a distinct id |
| Weapons.ShopIsByCost | src/stores/glupo/store.ts:410-415 | sorting the registry by cost gives Penitence, Red Eyes, Harvest, Heaven, Gold Rush, Magic Bullet, Smile, Twilight, with strictly rising costs |
| Weapons.OnlyGoldRushLowersStats | src/stores/glupo/weapon/gold-rush.ts:17-22 | Gold Rush's temperance -2 is the only negative weapon modifier |
| Weapons.Instances.constructor | src/stores/glupo/weapon/index.ts:23-32 | the single instance of each weapon starts with no spiders and no bullets fired |
| Armors.Get | src/stores/glupo/armor/index.ts:19-26 | each registered armor carries its id (also its image id), cost and modifier; none has a hit hook, only Penitence and Twilight react to panic and only Smile to its end |
| Armors.RegistryIsComplete | src/stores/glupo/armor/index.ts:8-26 | there are six armors, each registered once under a distinct id |
| Armors.ShopIsByCost | src/stores/glupo/store.ts:424-427 | the registry is already in strictly rising cost order, so sorting leaves it unchanged |
| Armors.OnlyHarvestLowersStats | src/stores/glupo/armor/harvest.ts:11-17 | Harvest's prudence -999 is the only negative armor modifier |
| Hooks.QuietIsQuiet | src/stores/glupo/types.ts:38-40 | a panic-hook effect list that only sets sanity or grants bonuses changes no sanity through `changeSanity`, pays nothing and spawns nothing |
| Hooks.EffectsCompose | src/stores/glupo/store.ts:125-133 | running the armor's hook and then the weapon's does what each does, in that order |
| ConfigFormat.FormatIsCurrent | src/stores/glupo/config/format.ts:9-10 | the current format version 2 is supported and is the highest supported version |
| ConfigFormat.UnknownVersionGivesDefault | src/stores/glupo/config/format.ts:38-41 | a missing or unsupported version tag gives the default save |
| ConfigFormat.CurrentVersionUnchanged | src/stores/glupo/config/format.ts:43-45 | version-2 data is returned as it is |
| ConfigFormat.V1MigratesOnce | src/stores/glupo/config/format.ts:47-52 | version-1 data passes through the version 1 to 2 migration exactly once |
| ConfigFormat.MigrateIdempotent | src/stores/glupo/config/format.ts:38-53 | a migrated record, tagged with the current version, migrates to itself |
| ConfigFormat.MigratePreservesConsistency | src/stores/glupo/config/format.ts:38-53 | a consistent save (selected items owned, nothing owned twice) stays consistent through migration |
| ConfigV1.DefaultIsFresh | src/stores/glupo/config/v1.ts:15-28 | the version-1 default owns and selects only the Penitence weapon and armor, at zayin, with no balance and every base stat at 1, and is consistent |
| ConfigV2.Migrate | src/stores/glupo/config/v2.ts:45-54 | every version-1 field is kept, the new fields start empty (no shards, no loops, no trinkets, sound on), and consistency is preserved both ways |
| ConfigV2.DefaultIsMigratedDefault | src/stores/glupo/config/v2.ts:25-43 | the version-2 default is the migrated version-1 default, field by field, and is consistent |
| GoldRushWeapon.OnHit | src/stores/glupo/weapon/gold-rush.ts:24-31 | a hit costs 1 sanity, and a critical hit 2 more in a second call; nothing is paid or spawned |
| HarvestWeapon.BaseBonus | src/stores/glupo/weapon/harvest.ts:28-33 | the base bonus is 64 below 5 prudence and 0 otherwise; the 128 of the prudence-0 branch is never chosen |
| HarvestWeapon.Payout | src/stores/glupo/weapon/harvest.ts:35-39 | at 5 prudence or more nothing is paid; below it 32 to 63, or 192 to 383 on a critical hit |
| HarvestWeapon.BoxesFor | src/stores/glupo/weapon/harvest.ts:42 | one box is shown per started 64 paid: 0 or 1 for a plain payout, 3 to 6 for a critical one |
| HarvestWeapon.OnHit | src/stores/glupo/weapon/harvest.ts:24-46 | a hit costs 15 sanity; below 5 prudence the payout is credited directly and its boxes are shown; at 5 or more nothing is paid or shown |
| HeavenWeapon.Bonus | src/stores/glupo/weapon/heaven.ts:27-42 | the bonus is 4, 2, 1 or 0, and positive exactly when the weapon's tilt is at most 0.05 rad either way |
| HeavenWeapon.BonusMonotone | src/stores/glupo/weapon/heaven.ts:31-42 | the closer to vertical, the larger the bonus, whichever way the weapon leans |
| HeavenWeapon.OnHit | src/stores/glupo/weapon/heaven.ts:25-50 | a hit costs 2 sanity; a near-vertical hit buys the bonus in boxes, at double value on a critical hit, and shows as many boxes |
| MagicBulletWeapon.OneInSeven | src/stores/glupo/weapon/magic-bullet.ts:44 | exactly one bullet in every seven consecutive ones is a seventh one |
| MagicBulletWeapon.Circle | src/stores/glupo/weapon/magic-bullet.ts:36-71 | the circle sits where it is opened, never fades, lives 750 ms (500 to 750 ms for a seventh) and fires a bullet from there when it ends |
| MagicBulletWeapon.OnHit | src/stores/glupo/weapon/magic-bullet.ts:31-72 | only a critical hit does anything, and then it adds exactly one circle; no sanity change, no pay |
| MagicBulletWeapon.Bullet | src/stores/glupo/weapon/magic-bullet.ts:74-102 | the bullet reaches its target after 250 / 16.67 frames, is destroyed by the player (seventh) or by Glupo, lives 5000 or 250 ms and never fades or falls |
| MagicBulletWeapon.OnBulletDestroyed | src/stores/glupo/weapon/magic-bullet.ts:103-131 | a seventh bullet that touched the player takes all remaining sanity and nothing else; another bullet that hit Glupo or timed out pays 777 per box for a box count in the stats' range and spills 1 to 7 boxes; otherwise nothing |
| MagicBulletWeapon.WeightsDecrease | src/stores/glupo/weapon/magic-bullet.ts:68-131 | a circle outweighs the bullet it fires, which outweighs the at most seven boxes it spills, so the chain of removals ends |
| PenitenceWeapon.OnHit | src/stores/glupo/weapon/penitence.ts:23-29 | a critical hit restores 5 sanity, any other hit costs 4; nothing else happens |
| RedEyesWeapon.Spider | src/stores/glupo/weapon/red-eyes.ts:40-59 | the spider never times out, has no destroy condition and fades, and its removal takes its bonus back |
| RedEyesWeapon.OnHit | src/stores/glupo/weapon/red-eyes.ts:27-60 | a hit costs 6 sanity; with a draw at most 0.5 and fewer than three spiders, one spider is added with +1 temperance |
| RedEyesWeapon.SpiderLeavesQuietly | src/stores/glupo/weapon/red-eyes.ts:40-59 | a spider is only removed by fading or leaving the screen, never by a collision or a time-out |
| SmileWeapon.DrawnBonus | src/stores/glupo/weapon/smile.ts:34-35 | the drawn bonus is an integer in [2500, 4999] |
| SmileWeapon.OnHit | src/stores/glupo/weapon/smile.ts:24-40 | at half the maximum sanity or more a hit costs 25 sanity and nothing else; below it, it costs 5 and shows 3 to 5 boxes |
| TwilightWeapon.CritBonusReversed | src/stores/glupo/weapon/twilight.ts:28-42 | the bonus the timer takes back is exactly the one granted |
| TwilightWeapon.OnHit | src/stores/glupo/weapon/twilight.ts:24-44 | a hit costs 6 sanity; a critical hit also grants +1 temperance and +1 justice for 2500 ms |
| PenitenceArmor.OnPanic | src/stores/glupo/armor/penitence.ts:19-24 | on panic, sanity becomes the current value plus 20, cut down to the maximum |
| PenitenceArmor.PanicRestoreRaises | src/stores/glupo/armor/penitence.ts:19-24 | from a sanity within the maximum the restore never lowers sanity; from zero it gives 20, or the maximum if that is lower |
| SmileArmor.PanicEndBonusReversed | src/stores/glupo/armor/smile.ts:19-35 | the bonus taken back after five seconds is exactly the one granted, and it leaves prudence alone |
| SmileArmor.OnPanicEnd | src/stores/glupo/armor/smile.ts:19-35 | the end of a panic grants +5 fortitude, temperance and justice once, for 5000 ms |
| TwilightArmor.OnPanic | src/stores/glupo/armor/twilight.ts:19-25 | with a draw below one half sanity is set to the maximum; otherwise nothing happens |
| WeaponSprite.InverseMass | src/stores/glupo/game/weapon.ts:74-75 | a static point's infinite mass has inverse 0; a positive finite mass has a positive inverse |
| WeaponSprite.Verlet | src/stores/glupo/game/weapon.ts:78-89 | after a point's update its previous position is the position it had |
| WeaponSprite.RestingPointFalls | src/stores/glupo/game/weapon.ts:78-89 | a point at rest only moves down by the gravity of 0.5 |
| WeaponSprite.Relax | src/stores/glupo/game/weapon.ts:111-127 | coincident ends are left alone, and an end of infinite mass never moves |
| WeaponSprite.RelaxBalances | src/stores/glupo/game/weapon.ts:118-126 | the two ends move in opposite directions, in inverse proportion to their masses |
| WeaponSprite.RelaxRestoresLength | src/stores/glupo/game/weapon.ts:111-127 | with an exact square root, the relaxed segment keeps its direction and has exactly its rest length |
| WeaponSprite.RelaxAt | src/stores/glupo/game/weapon.ts:111-127 | updating one segment moves only its two points and no previous position |
| WeaponSprite.PassKeepsPin | src/stores/glupo/game/weapon.ts:268-270 | a pass over the segments never moves the static first point or any previous position |
| WeaponSprite.PassesKeepPin | src/stores/glupo/game/weapon.ts:268-270 | the five passes of a frame never move the static first point or any previous position |
| WeaponSprite.StepPinsAnchor | src/stores/glupo/game/weapon.ts:263-270 | after a step the first point is exactly at the chain origin, its previous position is where its own update put it, and every other point's previous position is its position before the step |
| WeaponSprite.Layout | src/stores/glupo/game/weapon.ts:223-232 | ten points at rest hang straight down from the origin, one segment length apart |
| WeaponSprite.LayoutPinned | src/stores/glupo/game/weapon.ts:224-225 | of the laid-out points exactly the first is static |
| WeaponSprite.ChainPoint.constructor | src/stores/glupo/game/weapon.ts:65-76 | a new point is at rest at its position; a static point has infinite mass, and the inverse mass is the inverse of the mass |
| WeaponSprite.ChainPoint.Update | src/stores/glupo/game/weapon.ts:78-89 | the point's new state is its verlet update |
| WeaponSprite.ChainPoint.SetPosition | src/stores/glupo/game/weapon.ts:91-97 | the point moves to the target and remembers where it was |
| WeaponSprite.ChainSegment.constructor | src/stores/glupo/game/weapon.ts:105-109 | the segment joins the two given points with the given rest length |
| WeaponSprite.ChainSegment.Update | src/stores/glupo/game/weapon.ts:111-127 | the two ends move as `Relax` says; their previous positions are unchanged |
| WeaponSprite.Chain.States | src/stores/glupo/game/weapon.ts:12-15 | the chain's state is the state of each of its points, in order |
| WeaponSprite.Chain.constructor | src/stores/glupo/game/weapon.ts:219-248 | a new chain holds the laid-out points, fresh, joined by its segments |
| WeaponSprite.Chain.NewPoints | src/stores/glupo/game/weapon.ts:223-232 | ten distinct fresh points in the layout, the first static, the last of mass 10 |
| WeaponSprite.Chain.Link | src/stores/glupo/game/weapon.ts:234-242 | nine segments, segment k joining points k and k + 1 with length 10 |
| WeaponSprite.Chain.UpdatePoints | src/stores/glupo/game/weapon.ts:263 | every point takes its verlet update |
| WeaponSprite.Chain.RelaxPass | src/stores/glupo/game/weapon.ts:269 | one pass updates the segments in order, as `Pass` says |
| WeaponSprite.Chain.RelaxSegment | src/stores/glupo/game/weapon.ts:269 | the update of one segment changes the chain's state as `RelaxAt` says |
| WeaponSprite.Chain.Anchor | src/stores/glupo/game/weapon.ts:265-266 | the first point is moved to the origin |
| WeaponSprite.Chain.Step | src/stores/glupo/game/weapon.ts:261-270 | the chain's new state is `StepRule` of the old one: updates, anchoring, then five passes |
| WeaponSprite.Chain.Relaxation | src/stores/glupo/game/weapon.ts:268-270 | five passes over the segments, as `Passes` says |
| WeaponSprite.Weapon.constructor | src/stores/glupo/game/weapon.ts:143-150 | the weapon starts at the origin, still, upright, hidden and without a chain |
| WeaponSprite.Weapon.SetVisible | src/stores/glupo/game/weapon.ts:209-211 | only the visibility changes |
| WeaponSprite.Weapon.SetPosition | src/stores/glupo/game/weapon.ts:213-217 | only the position and speed change |
| WeaponSprite.Weapon.Draw | src/stores/glupo/game/weapon.ts:158-192 | a hidden weapon changes nothing; a visible one takes the tilt it is given and steps its trinket chain, which exists from then on when a trinket is selected |
| WeaponSprite.Weapon.DrawTrinket | src/stores/glupo/game/weapon.ts:250-270 | without a trinket nothing changes; otherwise the chain is created at the origin if missing and then stepped as `StepRule` says |
| Particles.Move | src/stores/glupo/game/particles.ts:33-36 | a visit first moves the particle by its velocity and then adds gravity to its vertical speed; nothing else changes |
| Particles.Collision | src/stores/glupo/game/particles.ts:43-87 | a particle is destroyed by a collision only with the target its destroy condition names, and by the player only while the weapon is shown |
| Particles.StepReasons | src/stores/glupo/game/particles.ts:40-118 | a visit removes a particle with a collision reason, and is then the only removal that visits the same index again, exactly when it collides; a "default" removal is a visible particle on the canvas whose time ran out; a removal without reason is one below the canvas or faded out |
| Particles.StepMovesFirst | src/stores/glupo/game/particles.ts:33-87 | the collision tests see the particle after it has moved, and the removed particle is the moved one |
| Particles.BounceBounds | src/stores/glupo/game/particles.ts:90-98 | the side walls put x back on the wall and reverse vx at 70% of its speed; the top edge puts y at 0 with a downward speed of 70%; otherwise nothing changes |
| Particles.KeptFadesAndAges | src/stores/glupo/game/particles.ts:106-118 | a kept particle has lost exactly its opacity decay, is still visible, and aged by the frame time |
| Particles.EverlastingLeavesByEdgeOrCollision | src/stores/glupo/game/particles.ts:100-118 | a particle that never fades nor expires is removed only by a collision or by falling below the canvas, never by time-out |
| Particles.StepKeepsCallback | src/stores/glupo/game/particles.ts:100-118 | whatever is removed is removed with its own destroy callback and condition |
| Particles.Particles.constructor | src/stores/glupo/game/particles.ts:24-25 | the particle list starts empty |
| Particles.Particles.AddParticle | src/stores/glupo/game/particles.ts:136-138 | appends the particle at the end and changes nothing else |
| Particles.Particles.Update | src/stores/glupo/game/particles.ts:30-118 | writes back the updated particle at its index, nothing else |
| Particles.Particles.RemoveAt | src/stores/glupo/game/particles.ts:100-104 | removes the particle at the index, shifting the later ones down |
| Sanity.InitialIsValid | src/stores/glupo/game/game.ts:35-43 | the starting state (sanity 100, no panic, no timer) keeps the timer invariant and has no pending bonus |
| Sanity.CancelRestore | src/stores/glupo/game/game.ts:261-263 | cancelling the restore timer keeps only timers that were pending, none of them with the cancelled id |
| Sanity.CancelRestoreKeeps | src/stores/glupo/game/game.ts:261-263 | cancelling the regeneration leaves none pending, every other timer, the same panic steps and the same pending bonus |
| Sanity.ChangeSanityOutcome | src/stores/glupo/game/game.ts:247-301 | in panic a change is ignored; falling to 0 or below starts a panic with the panic hooks' sanity over 0, no regeneration and exactly one panic step due after the restore delay; otherwise sanity is the sum clamped to maxSanity, with exactly one regeneration to maxSanity pending below the maximum; every other timer survives |
| Sanity.ChangeSanityKeepsClock | src/stores/glupo/game/game.ts:247-301 | a change of sanity keeps the timer invariant (one panic step exactly in panic, at most one regeneration, named by restoreTimer) and the pending bonus |
| Sanity.RescheduleKeepsClock | src/stores/glupo/game/game.ts:261-300 | cancelling the regeneration and scheduling one panic step or regeneration that the new state points at keeps the invariant and the pending bonus |
| Sanity.PanicStepOutcome | src/stores/glupo/game/game.ts:267-282 | a panic step ends the panic exactly when sanity plus one reaches the target, leaving no step pending; otherwise sanity rises by one and exactly one new step is pending; invariant and pending bonus kept |
| Sanity.StepsToRecoverCount | src/stores/glupo/game/game.ts:267-282 | a panic takes one step per missing point of sanity, and at least one step |
| Sanity.RegenerateRule | src/stores/glupo/game/game.ts:294-300 | a regeneration sets sanity to the maximum captured when it was scheduled |
| Sanity.RegenerateOutcome | src/stores/glupo/game/game.ts:294-300 | after a regeneration none is pending, no panic is on, the invariant and pending bonus are kept, and restoreTimer still names the fired id |
| Sanity.ReversalRule | src/stores/glupo/weapon/twilight.ts:35-42 | a bonus reversal removes its timer and leaves sanity alone |
| Sanity.ReversalOutcome | src/stores/glupo/armor/smile.ts:27-34 | the pending bonus drops by exactly what the reversal takes back, and the invariant is kept |
| Sanity.GrantRule | src/stores/glupo/weapon/twilight.ts:27-43 | a temporary bonus schedules one more timer and leaves sanity alone |
| Sanity.GrantOutcome | src/stores/glupo/armor/smile.ts:19-35 | scheduling the reversal of a temporary bonus grows the pending bonus by exactly that bonus, keeping the invariant |
| GameRules.Cancel | src/stores/glupo/game/game.ts:261-263 | clearing a timer keeps exactly the pending timers with another id |
| GameRules.Fired | src/stores/glupo/game/game.ts:267-282 | a timer that fires leaves the pending list, and nothing new joins it |
| GameRules.FiredReleases | src/stores/glupo/weapon/twilight.ts:35-42 | the bonus pending before a timer fires is the bonus pending after it plus what the fired timer held |
| GameRules.ScheduleReversal | src/stores/glupo/armor/smile.ts:27-34 | scheduling a reversal raises the pending bonus by exactly the stats the reversal will take back |
| GameRules.ScheduleOther | src/stores/glupo/game/game.ts:282 | scheduling a panic step or a regeneration holds no bonus |
| GameRules.CancelKeepsBonus | src/stores/glupo/game/game.ts:294-296 | cancelling a timer that is no reversal keeps the pending bonus |
| GameRules.CountSchedule | src/stores/glupo/game/game.ts:298-300 | scheduling a timer adds one to the count of its own kind and none to the others |
| GameRules.CountFired | src/stores/glupo/game/game.ts:267-282 | firing a timer takes one from the count of its own kind and none from the others |
| GameRules.CountCancel | src/stores/glupo/game/game.ts:294-296 | cancelling never raises a count, and cancelling the only id of a kind leaves none of it |
| GameRules.TierDivisor | src/stores/glupo/game/game.ts:149-159 | one reward particle stands for between one and four boxes |
| GameRules.TierCount | src/stores/glupo/game/game.ts:149-159 | the particles shown are the drawn boxes divided by the tier's divisor, rounded up |
| GameRules.TierShrinks | src/stores/glupo/game/game.ts:145-161 | higher throughput never shows more particles; a hit with at least one box shows between one and that many; each tier has its own sprite |
| GameRules.BoxParticle | src/stores/glupo/game/game.ts:97-128 | a spawned box starts at the spawn point, opaque, with the style's size and sprite, never times out, collides with nothing and plays the pick-up cue when removed |
| GameRules.Boxes | src/stores/glupo/game/game.ts:97-128 | a spawn of n boxes adds exactly n box particles, the i-th with the i-th launch velocity |
| GameRules.HitFlash | src/stores/glupo/game/game.ts:170-183 | the hit flash stands still at the hit, is 64 pixels on a critical hit and 24 otherwise, lasts one second and has no callback |
| GameRules.EffectsWeightSnoc | src/stores/glupo/game/game.ts:97-128 | what a run of hook calls appends weighs the sum of what each call appends |
| GameRules.SpidersAppend | src/stores/glupo/weapon/red-eyes.ts:27-60 | the spiders of two particle lists put together are the spiders of each |
| GameRules.NoSpiderBoxes | src/stores/glupo/game/game.ts:97-128 | spawned boxes are never spiders |
| GameRules.SpidersRemove | src/stores/glupo/game/particles.ts:100-118 | removing a particle removes its spider, if it is one, and no other |
| GameRules.SpidersUpdate | src/stores/glupo/game/particles.ts:30-118 | writing back an updated particle with the same callback keeps the spider count |
| GameRules.SpiderBonuses | src/stores/glupo/weapon/red-eyes.ts:27-60 | n live spiders are worth n temperance and nothing else |
| GameRules.HurtChance | src/stores/glupo/game/game.ts:202-216 | the hurt cue cannot play at half sanity or more; below half its chance lies in (0.25, 0.75] for non-negative sanity and is 0.75 at zero |
| GameRules.HurtCueBounds | src/stores/glupo/game/game.ts:202-223 | the hurt cue never plays at half sanity or more, always plays below half for a draw up to 0.25, never for a draw above 0.75, and lower sanity never lowers its chance |
| GameRules.IdleStep | src/stores/glupo/game/game.ts:225-245 | within 5 s of a hit the cue is silent and unscheduled; otherwise the cue plays exactly when a schedule exists and is due, each new schedule lies 5 to 10 s ahead, and a schedule not yet due is kept |
| GameRules.IdleNotBefore | src/stores/glupo/game/game.ts:225-245 | with no hit for 5 s and a schedule not before a bound, no frame plays the idle cue before that bound |
| GameRules.IdleCuesSpaced | src/stores/glupo/game/game.ts:233-244 | two idle cues with no hit between them are at least 5 s apart, whatever frames come between |
| GameRules.AfterWrites | src/stores/glupo/armor/penitence.ts:19-24 | the sanity after the panic hooks is the last value they wrote, or the value before |
| GameWorld.BonusLeavesNoTrace | src/stores/glupo/store.ts:169-173 | with no reversal pending and no spider alive the temporary bonus is exactly zero |
| GameWorld.InitialWorldValid | src/stores/glupo/game/game.ts:35-43 | a new game over a valid save record, with sanity 100, no bonus, no timer and no particle, satisfies the game's invariant |
| GameWorld.EmptyAccounted | src/stores/glupo/store.ts:169-173 | no bonus, no timer and no spider is a consistent bookkeeping |
| GameWorld.ResetKeepsValid | src/stores/glupo/game/game.ts:303-307 | setting sanity to any value, outside panic and with no regeneration id, keeps the invariant when no timer is pending |
| GameWorld.Added | src/stores/glupo/game/game.ts:97-128 | the particles a hook call appends weigh what the call is said to weigh |
| GameWorld.EffectRule | src/stores/glupo/store.ts:125-173 | a hook call appends to the particle list exactly the particles it spawns |
| GameWorld.EffectKeepsValid | src/stores/glupo/store.ts:125-173 | every call an item hook makes keeps the game's invariant: save record consistent and within the cap, timers valid, and the bonus equal to what reversals and live spiders hold |
| GameWorld.SanityEffectKeepsValid | src/stores/glupo/game/game.ts:247-301 | a change of sanity from a hook keeps the invariant, panic hooks included |
| GameWorld.PlainEffectKeepsValid | src/stores/glupo/store.ts:155-167 | adding balance, adding boxes or writing sanity keeps the invariant |
| GameWorld.ParticleEffectKeepsValid | src/stores/glupo/game/particles.ts:136-138 | spawning boxes or adding a particle that is not a spider keeps the invariant |
| GameWorld.SpiderEffectKeepsValid | src/stores/glupo/weapon/red-eyes.ts:27-60 | a spider, counted once and worth one temperance, keeps the invariant |
| GameWorld.BonusEffectKeepsValid | src/stores/glupo/weapon/twilight.ts:27-43 | a temporary bonus granted now with its reversal scheduled keeps the invariant |
| GameWorld.EffectsRule | src/stores/glupo/store.ts:125-153 | a run of hook calls appends exactly the particles its calls spawn, in order |
| GameWorld.EffectsStep | src/stores/glupo/store.ts:125-153 | running a prefix of hook calls and then the next is running the longer prefix |
| GameWorld.AddedAllWeight | src/stores/glupo/store.ts:125-153 | what a run of calls appends weighs the sum of the calls' weights |
| GameWorld.EffectsKeepValid | src/stores/glupo/store.ts:125-153 | a run of hook calls keeps the invariant |
| GameWorld.HitHooksAddNoStraySpider | src/stores/glupo/store.ts:125-133 | the hit hooks of every weapon and armor add spiders only through the counted spider call |
| GameWorld.HitHooksAddNoParticle | src/stores/glupo/store.ts:125-133 | only Magic Bullet's hit hook adds particles of its own |
| GameWorld.OtherHooksAddNoStraySpider | src/stores/glupo/store.ts:145-153 | panic-end hooks and a bullet's landing add no uncounted spider |
| GameWorld.FireKeepsValid | src/stores/glupo/game/game.ts:267-300 | a timer firing (regeneration, bonus reversal, or panic step with the panic-end hooks) keeps the invariant |
| GameWorld.PanicFireKeepsValid | src/stores/glupo/game/game.ts:267-282 | a panic step, and the panic-end hooks when it ends the panic, keep the invariant |
| GameWorld.LandingWeight | src/stores/glupo/weapon/magic-bullet.ts:103-131 | a bullet's landing spawns at most seven boxes' weight |
| GameWorld.DestroyAppendsLess | src/stores/glupo/weapon/magic-bullet.ts:74-135 | a destroy callback only appends particles, and what it appends weighs less than the particle that ran it, so the frame loop ends |
| GameWorld.DestroyKeepsValid | src/stores/glupo/game/particles.ts:100-118 | running the callback of a particle just taken out of the list restores the invariant |
| GameWorld.SpiderGoneKeepsValid | src/stores/glupo/weapon/red-eyes.ts:27-60 | a spider's removal takes back its count and temperance and keeps the invariant |
| GameWorld.FireBulletKeepsValid | src/stores/glupo/weapon/magic-bullet.ts:74-101 | a magic circle firing its bullet keeps the invariant |
| GameWorld.LandingKeepsValid | src/stores/glupo/weapon/magic-bullet.ts:103-131 | a bullet's landing keeps the invariant |
| GameWorld.FrameTurn | src/stores/glupo/game/particles.ts:30-118 | one turn of the particle loop leaves strictly less weight to visit; a collision revisits the same index, any other removal moves on |
| GameWorld.KeptShrinks | src/stores/glupo/game/particles.ts:30-118 | a particle kept in place leaves less to visit after it |
| GameWorld.RemovedShrinks | src/stores/glupo/game/particles.ts:49-51 | a removal whose callback appends less than the removed weight leaves less to visit, whether the index is revisited or not |
| GameWorld.FrameKeepsValid | src/stores/glupo/game/particles.ts:30-133 | a whole frame of the particle loop keeps the invariant |
| GameWorld.TurnKeepsValid | src/stores/glupo/game/particles.ts:30-118 | one turn of the particle loop keeps the invariant |
| GameWorld.KeptKeepsValid | src/stores/glupo/game/particles.ts:30-118 | writing back an updated particle with its own callback keeps the invariant |
| GameWorld.RemovedKeepsValid | src/stores/glupo/game/particles.ts:100-118 | removing a particle and running its callback keeps the invariant |
| GameWorld.StrikeOutcome | src/stores/glupo/game/game.ts:136-183 | a hit draws between minBoxes and maxBoxes boxes, credits them at the critical multiplier, shows between one and that many boxes when boxes have a price and none otherwise, then one flash, leaving sanity, timers, spiders and bonus alone, and keeps the invariant |
| GameWorld.StrikeShows | src/stores/glupo/game/game.ts:143-183 | a strike only appends: the boxes it shows and then the flash, none a spider |
| GameWorld.AppendedShape | src/stores/glupo/game/game.ts:163-183 | appending boxes and a flash keeps the list's prefix and its spiders |
| GameWorld.StrikeKeepsValid | src/stores/glupo/game/game.ts:136-183 | a strike keeps the invariant |
| GameWorld.HitKeepsValid | src/stores/glupo/game/game.ts:130-190 | a whole hit, the item hooks included, keeps the invariant |
| GameWorld.PanicHooksRestore | src/stores/glupo/armor/penitence.ts:19-24 | a panic leaves sanity at 20 (or maxSanity when lower) with Penitence armor, at maxSanity with Twilight armor on a draw below one half, and at 0 otherwise |
| Game.HitsAreSpaced | src/stores/glupo/game/game.ts:73-79 | a mouse move hits only more than a cooldown after the last hit, and a move of 20 pixels or less never hits |
| Game.Game.constructor | src/stores/glupo/game/game.ts:35-55 | a new game has sanity 100, no panic, no timer, no particle, no bonus, and satisfies the game's invariant |
| Game.Game.Init | src/stores/glupo/game/game.ts:303-307 | sanity becomes the current maxSanity with no panic and no regeneration id; no timer is cancelled; the invariant holds when none was pending |
| Game.Game.Schedule | src/stores/glupo/game/game.ts:282 | a new timer gets the next id and joins the pending list; nothing else changes |
| Game.Game.RunWrites | src/stores/glupo/armor/penitence.ts:19-24 | the panic hooks' writes leave sanity at the last value written |
| Game.Game.ChangeSanity | src/stores/glupo/game/game.ts:247-301 | the game moves exactly as the sanity rule says (see Sanity.ChangeSanityOutcome), panic hooks included |
| Game.Game.AdjustSanity | src/stores/glupo/game/game.ts:252-301 | past the panic guard the clock moves exactly as the sanity rule says |
| Game.Game.FallIntoPanic | src/stores/glupo/game/game.ts:257-284 | a change to 0 or below follows the sanity rule's panic branch |
| Game.Game.StartPanic | src/stores/glupo/game/game.ts:258-282 | panic starts with the hooks' sanity over 0, the regeneration cancelled and one panic step due after the restore delay |
| Game.Game.RestartRegeneration | src/stores/glupo/game/game.ts:294-300 | the pending regeneration is replaced by one that restores the maxSanity of now after the regeneration delay, and restoreTimer names it |
| Game.Game.SpawnBoxes | src/stores/glupo/game/game.ts:97-128 | a spawn appends exactly the boxes of the spawn, in launch order |
| Game.Game.ApplyEffect | src/stores/glupo/store.ts:125-173 | one hook call changes the game exactly as the call's rule says |
| Game.Game.ApplyEffects | src/stores/glupo/store.ts:125-153 | the calls of a hook are applied in order, as the rule for the run says |
| Game.Game.HandleHit | src/stores/glupo/game/game.ts:130-190 | in panic a hit does nothing; otherwise the hit time is noted and the game moves as the hit rule says, reporting the boxes drawn, the critical flag and whether the hurt cue plays on the sanity after the hooks; the invariant is kept |
| Game.Game.Hit | src/stores/glupo/game/game.ts:136-186 | a hit past the panic test is the strike then the selected items' hit hooks, with the drawn count and critical flag reported |
| Game.Game.Strike | src/stores/glupo/game/game.ts:136-183 | the part of a hit before the hooks follows the strike rule |
| Game.Game.ShowHit | src/stores/glupo/game/game.ts:163-183 | the shown boxes, when boxes have a price, then the hit flash are appended |
| Game.Game.HandleMouseMove | src/stores/glupo/game/game.ts:57-87 | a move that is too far, too slow or within the cooldown changes nothing; one that passes all three hits at the pointer, unless in panic; the invariant is kept |
| Game.Game.PlayIdleSound | src/stores/glupo/game/game.ts:225-245 | the next idle time and whether the cue plays are as the idle rule says; nothing else changes |
| Game.Game.FireTimer | src/stores/glupo/game/game.ts:267-300 | a timer firing changes the game exactly as the timer rule says and keeps the invariant |
| Game.Game.RunPanicStep | src/stores/glupo/game/game.ts:267-282 | a panic step follows the timer rule, running the panic-end hooks when the panic ends |
| Game.Game.StepPanic | src/stores/glupo/game/game.ts:268-279 | the clock part of a panic step follows the panic-step rule, and it reports an end exactly when sanity plus one reaches the target |
| Game.Game.RunDestroy | src/stores/glupo/weapon/magic-bullet.ts:74-135 | a removed particle's callback changes the game as the destroy rule says |
| Game.Game.DrawParticles | src/stores/glupo/game/particles.ts:30-133 | the particle loop of one frame changes the game as the frame rule says and keeps the invariant |
| Game.Game.StepParticle | src/stores/glupo/game/particles.ts:30-118 | one visit of the particle loop changes the game, and picks the next index, as the turn rule says |
| Game.Game.DrawFrame | src/stores/glupo/game/game.ts:309-339 | nothing happens while the store loads; otherwise the particles run with the elapsed time, the idle cue is decided and the timestamp is kept; the invariant is kept |
| Game.Game.Elapsed | src/stores/glupo/game/game.ts:314-318 | the first frame has no elapsed time; later ones the time since the last frame |
| Game.Game.RunFrame | src/stores/glupo/game/game.ts:318-338 | a frame past the loading test runs the particles, decides the idle cue and keeps the timestamp |
| Settings.Deserialize | src-tauri/src/settings.rs:17-25 | a stored record without a version reads as version 0; every other field reads as stored |
| Settings.Default | src-tauri/src/settings.rs:27-37 | the hard-coded default is at the current version with no source, nothing selected, no game folder and no language |
| Settings.MigrateOutcome | src-tauri/src/settings.rs:64-86 | a record at the current version or later is left alone and reported unchanged; a version-0 record is reported changed, ends at version 1 with every default source key added, keeps the user's value for every key it had, and nothing else changes |
| Settings.MigrateIdempotent | src-tauri/src/settings.rs:64-86 | migrating a migrated record changes nothing and reports no change |
| Settings.MigrateReportsChange | src-tauri/src/settings.rs:64-86 | migration reports a change exactly when the record changes |
| Settings.MigrateSettings | src-tauri/src/settings.rs:64-86 | the in-place migration yields exactly the change flag and record of the migration rule |
| Settings.AddMissingSources | src-tauri/src/settings.rs:72-77 | inserting each missing default source in any order gives the user's sources merged with the defaults, the user's winning |
| Settings.MergeStep | src-tauri/src/settings.rs:72-77 | taking one more default key into account adds its source exactly when the user lacks it |
| Settings.BundledDefaults | src-tauri/src/settings.rs:44-62 | a missing bundled file gives the hard-coded default; a parsed one its contents read with `Deserialize`; an unreadable or unparsable one an error |
| Settings.LoadOutcome | src-tauri/src/settings.rs:88-117 | a missing file gives the defaults and writes them; an unreadable file is an error; otherwise the parsed record, or the defaults when it does not parse, is migrated and written back exactly when migration changed it, and what is written is what is returned; a file stored without a version is always rewritten at version 1 |
| Steam.Split | src-tauri/src/steam.rs:127 | splitting gives at least one piece and no piece holds the separator |
| Steam.SplitJoined | src-tauri/src/steam.rs:127 | joining the pieces with the separator gives the text back |
| Steam.Field | src-tauri/src/steam.rs:127 | the n-th field exists exactly when the line has more than n pieces, and holds no quote |
| Steam.ContainsAt | src-tauri/src/steam.rs:126 | a line contains a pattern exactly when the pattern starts at one of its positions |
| Steam.StripCR | src-tauri/src/steam.rs:125 | a line loses at most one trailing carriage return |
| Steam.Lines | src-tauri/src/steam.rs:125 | no line holds a line feed |
| Steam.SplitNoSeparator | src-tauri/src/steam.rs:127 | a text without the separator splits into itself alone |
| Steam.SplitAtFirst | src-tauri/src/steam.rs:127 | the text before the first separator is the first piece, and the other pieces are those of the text after it |
| Steam.LinesOfLast | src-tauri/src/steam.rs:125 | a text without a line feed is one line, unchanged and with any carriage return kept; the empty text has no line |
| Steam.LinesCons | src-tauri/src/steam.rs:125 | the text before the first line feed, less one trailing carriage return, is the first line, and the remaining lines are the lines of the text after it |
| Steam.LinesCRLF | src-tauri/src/steam.rs:125 | a line ended by a carriage return and line feed loses exactly that carriage return |
| Steam.LineLibrary | src-tauri/src/steam.rs:125-131 | a line names a library exactly when it contains `"path"` and has a fourth quoted field; the library is that field's steamapps/common folder |
| Steam.LibrariesInAppend | src-tauri/src/steam.rs:125-131 | the libraries of two blocks of lines are those of the first, then those of the second |
| Steam.LibrariesInMembers | src-tauri/src/steam.rs:125-131 | a path is listed exactly when some line names it |
| Steam.LibraryPaths | src-tauri/src/steam.rs:114-132 | the library list is the Steam folder's own steamapps/common, then the libraries the file's lines name, in order |
| Steam.InstallDirFirst | src-tauri/src/steam.rs:144-150 | a manifest gives an install folder exactly when some line does, and then the first such line's |
| Steam.FindInstallDir | src-tauri/src/steam.rs:144-150 | the scan of a manifest's lines returns the first usable install folder |
| Steam.SearchNotFound | src-tauri/src/steam.rs:134-154 | when no library answers the game is not found |
| Steam.SearchFirst | src-tauri/src/steam.rs:134-152 | any other result is the answer of a library before which no library answered |
| Steam.LibrariesInShape | src-tauri/src/steam.rs:128 | every library the file names is a folder followed by steamapps and common |
| Steam.NoInvalidLibrary | src-tauri/src/steam.rs:134-137 | every library built has a parent folder, so the "Invalid library path" error never arises |
| Steam.FoundInLibrary | src-tauri/src/steam.rs:138-148 | a found game folder is its library with the install folder's name added |
| Steam.GetGameDirectory | src-tauri/src/steam.rs:112-155 | the search, error paths included, gives exactly the result of the lookup rule |
| Steam.SearchLibraries | src-tauri/src/steam.rs:134-154 | the loop over the libraries gives exactly the first answer, or not found |
| Steam.ValidateGameDirectory | src-tauri/src/steam.rs:94-110 | a folder is valid exactly when it holds both the executable and the data folder; otherwise the error is "Invalid game directory" |
| Steam.IsGameRunning | src-tauri/src/steam.rs:157-166 | the game runs exactly when some process has a readable name starting with "LimbusCompany.e" |
| Steam.RunningNames | src-tauri/src/steam.rs:157-166 | the game's own executable counts as the game; a name that stops before ".e", or an unreadable one, does not |
| Economy.CooldownsPositive | src/stores/glupo/weapon/index.ts:23-32 | every weapon has a positive cooldown, so the cooldown a hit waits for is defined |

## Left out

- Drawing is not part of this model: canvas calls, images, the glupo sprite's wobble, the sanity gauge's easing, and the weapon sprite's jitter in panic. `drawFrame` keeps only the particle loop, the idle cue and the timestamp. A frame without a 2D context is not modelled.
- Sounds are not modelled, and neither is the choice among sound variants. The hurt and idle cues are modelled as decisions that a cue plays.
- Floating-point arithmetic is modelled as exact reals. The following become parameters: `Math.log2`, `Math.sqrt`, the trigonometry of launch angles, the pointer's distance and speed in `handleMouseMove`, and the square root of a chain segment.
- Geometric collision tests are passed in as flags. These are the glupo-hit distance and the player-hit rotated box. A particle's `rotation` and `hue` are left out because nothing else reads them.
- Persistence is not modelled: `GlupoStore.load`, `refresh` and the auto-save. The same goes for image-asset lookup (`trinketList`), and for the developer-only `cheat` and `resetTrinkets` store methods.
- The weapon's tilt (`tanh` of the mouse speed) and `applySourceTransform` are not modelled. The tilt is a parameter of `WeaponSprite.Weapon.Draw`.
- Particles.Particles: the source runs a removed particle's callback before `splice`, while the model splices first. The two orders agree because every callback only appends to the list.
- Game.Game.Init: like the source, it cancels no timer. The invariant is therefore proved only for a game without pending timers, which is how `init` is used.
- WeaponSprite.ChainSegment.Update requires the two ends' inverse masses not to sum to 0. Two static ends would make the source divide by zero and produce NaN, which reals cannot express. The chain built by `setupTrinketChain` never has two static neighbours.
- WeaponSprite.RelaxRestoresLength assumes an exact square root; the verlet coordinates themselves are not checked against floating point.
- `launch_game` and `get_steam_path` are not part of this model. They spawn a process and read the Windows registry or the home folder. The Steam folder, or the error of finding it, is a parameter of `Steam.GameDirectory`.
- Game.Game.HandleMouseMove: the pointer is an input of the move, and the model holds no record of the last pointer and no weapon sprite to move. The source records the pointer and calls `weapon.setPosition` after `handleHit` (`game.ts:81-86`), so during a hit its `game.mouse` is still the previous pointer, while the model's hooks see the new one. The only reader is the seventh circle's direction in `weapon/magic-bullet.ts:46-47`, which the model takes as a draw.
- Steam.IsGameRunning takes the process list, not sysinfo's system scan. A name that is not valid UTF-8 is passed as `None`.
- Steam.GameDirectory joins paths as lists of components. Rust's rule that joining an absolute path replaces the base is not modelled, and neither are separators inside a field.
- Settings.Load takes the bundled defaults as already loaded. A failure to create the config folder, or to save, is an I/O error and is not modelled. Writes are returned as the record to be written.
- Trinkets.SortBy: compares keys by character code, where the source's `localeCompare` uses the locale's collation. The two orders agree on the catalogue's trinket ids: they are lower-case ASCII, and no two ids of one rarity first differ at a `-` or `.`. They do not agree on arbitrary strings.
- Integer widths are unbounded. The source's JavaScript numbers stay far below 2^53 in every reachable state, and `config_version` is a `u32` that only takes the values 0 and 1.

## Where the model follows the code

- The starting save has a maximum sanity of 140. The save's base prudence is 1 (`config/v2.ts:32-37`), its armor is Penitence (`config/v2.ts:27`), which adds 3 prudence (`armor/penitence.ts:14`), and `60 + prudence * 20` (`store.ts:226`) gives 60 + 4 × 20. `Economy.DefaultDerived` states it.
- The gacha's winner index is drawn by `randomRangeInt(reel.length / 4, reel.length * 3 / 4)` (`store.ts:618-620`). `randomRangeInt` floors a draw from [min, max + 1) (`utils.ts:5-7`), so both ends are included and the index lies in 75..225 of the 300-cell reel. `Store.GlupoStore.BuyTrinketRoll` states it.
- The trinket chain is built only while `data.chain` is `null` (`game/weapon.ts:257-259`), and nothing sets it back to `null`. Once built, it is kept when the trinket is deselected and reused when one is selected again. `WeaponSprite.Weapon.DrawTrinket` states it.
- Sanity can sit above maxSanity after switching to an armor with less prudence. Nothing clamps it until the next change of sanity.
- Several branches in the source can never run:
  - Harvest's bonus of 128 for zero prudence (`weapon/harvest.ts`), because the test for prudence below 5 is made first;
  - the `Math.max(100, bps)` in `handleHit`, whose result is never read;
  - the "Invalid library path" error of `get_game_directory`, proved unreachable by `Steam.NoInvalidLibrary`;
  - the "Invalid game path" error of `validate_game_directory` (`steam.rs:101-103`). The path was just joined with `LimbusCompany.exe`, so it always has a parent, and `Steam.ValidateGameDirectory` has no such branch.
- A particle removed at the bottom edge, by fading or by time-out makes the loop skip the particle that shifts into its slot, for that frame. The model keeps this, and `GameWorld.FrameTurn` states it.
