/** The armor registry (src/stores/glupo/armor/index.ts): six armors, keyed by id. */
module Armors {
  import opened Types
  import opened Hooks
  import Utils
  import PenitenceArmor
  import RedEyesArmor
  import HarvestArmor
  import HeavenArmor
  import SmileArmor
  import TwilightArmor

  datatype ArmorId = Penitence | RedEyes | Harvest | Heaven | Smile | Twilight

  /** The registry in declaration order, which is also ascending cost order. */
  const AllArmors: seq<ArmorId> := [Penitence, RedEyes, Harvest, Heaven, Smile, Twilight]

  function Key(id: ArmorId): string
  {
    match id
    case Penitence => "armor.penitence"
    case RedEyes => "armor.red-eyes"
    case Harvest => "armor.harvest"
    case Heaven => "armor.heaven"
    case Smile => "armor.smile"
    case Twilight => "armor.twilight"
  }

  function Cost(id: ArmorId): nat
  {
    match id
    case Penitence => PenitenceArmor.Cost
    case RedEyes => RedEyesArmor.Cost
    case Harvest => HarvestArmor.Cost
    case Heaven => HeavenArmor.Cost
    case Smile => SmileArmor.Cost
    case Twilight => TwilightArmor.Cost
  }

  function Modifier(id: ArmorId): Stats
  {
    match id
    case Penitence => PenitenceArmor.Modifier
    case RedEyes => RedEyesArmor.Modifier
    case Harvest => HarvestArmor.Modifier
    case Heaven => HeavenArmor.Modifier
    case Smile => SmileArmor.Modifier
    case Twilight => TwilightArmor.Modifier
  }

  /** The registry entry of an armor: its record carries the id it is registered under,
      its image is its id; no armor hooks hits, Penitence and Twilight hook the start of
      a panic and Smile its end. */
  function Get(id: ArmorId): (a: Armor)
    ensures a.id == Key(id) && a.image == Key(id)
    ensures a.cost == Cost(id) && a.stats == Modifier(id)
    ensures a.onHit.None?
    ensures a.onPanic.Some? <==> id == Penitence || id == Twilight
    ensures a.onPanicEnd.Some? <==> id == Smile
  {
    match id
    case Penitence => Armor(Key(id), Key(id), Modifier(id), Cost(id), None, Some(PenitenceArmor.OnPanic), None)
    case RedEyes => Armor(Key(id), Key(id), Modifier(id), Cost(id), None, None, None)
    case Harvest => Armor(Key(id), Key(id), Modifier(id), Cost(id), None, None, None)
    case Heaven => Armor(Key(id), Key(id), Modifier(id), Cost(id), None, None, None)
    case Smile => Armor(Key(id), Key(id), Modifier(id), Cost(id), None, None, Some(SmileArmor.OnPanicEnd))
    case Twilight => Armor(Key(id), Key(id), Modifier(id), Cost(id), None, Some(TwilightArmor.OnPanic), None)
  }

  /** Six armors, each registered once, under pairwise distinct ids. */
  lemma RegistryIsComplete(a: ArmorId, b: ArmorId)
    ensures |AllArmors| == 6 && a in AllArmors
    ensures Key(a) == Key(b) ==> a == b
  {
    if Key(a) == Key(b) {
      assert Key(a)[6] == Key(b)[6];
      assert Key(a)[7] == Key(b)[7];
    }
  }

  /** Sorting the registry by cost leaves it as it is: costs already strictly increase
      along the declaration order. */
  lemma ShopIsByCost()
    ensures Utils.SortByKey(Cost, AllArmors) == AllArmors
    ensures forall i, j :: 0 <= i < j < |AllArmors| ==> Cost(AllArmors[i]) < Cost(AllArmors[j])
  {
    assert [Twilight][1..] == [];
    assert Utils.SortByKey(Cost, [Twilight]) == [Twilight];
    Utils.SortCons(Cost, Smile, [Twilight], [Twilight]);
    Utils.SortCons(Cost, Heaven, [Smile, Twilight], [Smile, Twilight]);
    Utils.SortCons(Cost, Harvest, [Heaven, Smile, Twilight], [Heaven, Smile, Twilight]);
    Utils.SortCons(Cost, RedEyes, [Harvest, Heaven, Smile, Twilight], [Harvest, Heaven, Smile, Twilight]);
    Utils.SortCons(Cost, Penitence, [RedEyes, Harvest, Heaven, Smile, Twilight], [RedEyes, Harvest, Heaven, Smile, Twilight]);
  }

  /** Harvest is the only armor with a negative modifier: prudence -999, far below
      anything the other stat sources can add up to. */
  lemma OnlyHarvestLowersStats(id: ArmorId, k: StatKey)
    ensures Modifier(id).Get(k) < 0 <==> id == Harvest && k == Prudence
    ensures Modifier(Harvest).prudence == -999
  {
  }
}
