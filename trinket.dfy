/** The trinket catalogue (src/stores/glupo/trinket.ts) and its grouping by rarity
    (the `trinketsByRarity` getter of src/stores/glupo/store.ts). */
module Trinkets {

  /** The twenty trinkets, in the order the catalogue declares them. */
  datatype TrinketId =
    | Dante | Don | Faust | Gregor | Heathcliff | HongLu | Ishmael | Meursault
    | Outis | Rodion | Ryoshu | Sinclair | Cathy | Erlking | XiaojinCall
    | CopiumElder | Ayin | FaustDerp | IshmaelSad | ArayaWatermellon

  datatype Rarity = Common | Rare | Special

  const AllRarities: seq<Rarity> := [Common, Rare, Special]

  /** The catalogue, written in rows of five. */
  const Row1: seq<TrinketId> := [Dante, Don, Faust, Gregor, Heathcliff]
  const Row2: seq<TrinketId> := [HongLu, Ishmael, Meursault, Outis, Rodion]
  const Row3: seq<TrinketId> := [Ryoshu, Sinclair, Cathy, Erlking, XiaojinCall]
  const Row4: seq<TrinketId> := [CopiumElder, Ayin, FaustDerp, IshmaelSad, ArayaWatermellon]
  const AllTrinkets: seq<TrinketId> := Row1 + Row2 + Row3 + Row4

  /** Position of a trinket in the catalogue. */
  function Ordinal(t: TrinketId): (i: nat)
    ensures i < |AllTrinkets| && AllTrinkets[i] == t
  {
    match t
    case Dante => 0 case Don => 1 case Faust => 2 case Gregor => 3 case Heathcliff => 4
    case HongLu => 5 case Ishmael => 6 case Meursault => 7 case Outis => 8 case Rodion => 9
    case Ryoshu => 10 case Sinclair => 11 case Cathy => 12 case Erlking => 13 case XiaojinCall => 14
    case CopiumElder => 15 case Ayin => 16 case FaustDerp => 17 case IshmaelSad => 18 case ArayaWatermellon => 19
  }

  /** The persisted key of a trinket; the catalogue's image id is the same string. */
  function Key(t: TrinketId): string
  {
    match t
    case Dante => "trinket.dante"
    case Don => "trinket.don"
    case Faust => "trinket.faust"
    case Gregor => "trinket.gregor"
    case Heathcliff => "trinket.heathcliff"
    case HongLu => "trinket.hong-lu"
    case Ishmael => "trinket.ishmael"
    case Meursault => "trinket.meursault"
    case Outis => "trinket.outis"
    case Rodion => "trinket.rodion"
    case Ryoshu => "trinket.ryoshu"
    case Sinclair => "trinket.sinclair"
    case Cathy => "trinket.cathy"
    case Erlking => "trinket.erlking"
    case XiaojinCall => "trinket.xiaojin-call"
    case CopiumElder => "trinket.copium-elder"
    case Ayin => "trinket.ayin"
    case FaustDerp => "trinket.faust-derp"
    case IshmaelSad => "trinket.ishmael-sad"
    case ArayaWatermellon => "trinket.araya-watermellon"
  }

  function Image(t: TrinketId): string
  {
    Key(t)
  }

  function RarityOf(t: TrinketId): Rarity
  {
    match t
    case Dante | Don | Faust | Gregor | Heathcliff | HongLu | Ishmael | Meursault | Ryoshu | Sinclair => Common
    case Outis | CopiumElder | Ayin | FaustDerp | IshmaelSad => Rare
    case Rodion | Cathy | Erlking | XiaojinCall | ArayaWatermellon => Special
  }

  /** The catalogue lists every trinket exactly once, each with its image id equal to its key. */
  lemma CatalogueIsComplete(t: TrinketId)
    ensures t in AllTrinkets
    ensures Image(t) == Key(t)
    ensures |AllTrinkets| == 20
    ensures NoDuplicates(AllTrinkets)
  {
    assert AllTrinkets[Ordinal(t)] == t;
    forall i, j | 0 <= i < j < |AllTrinkets| ensures AllTrinkets[i] != AllTrinkets[j] {
      OrdinalOfEntry(i);
      OrdinalOfEntry(j);
    }
  }

  lemma OrdinalOfEntry(i: nat)
    requires i < |AllTrinkets|
    ensures Ordinal(AllTrinkets[i]) == i
  {
  }

  /** Lexicographic order of strings by character code (`a` sorts before or equal to `b`). */
  predicate LexLe(a: string, b: string)
  {
    |a| == 0 || (|b| > 0 && (a[0] < b[0] || (a[0] == b[0] && LexLe(a[1..], b[1..]))))
  }

  lemma {:induction false} LexLeTotal(a: string, b: string)
    ensures LexLe(a, b) || LexLe(b, a)
  {
    if |a| > 0 && |b| > 0 && a[0] == b[0] {
      LexLeTotal(a[1..], b[1..]);
    }
  }

  lemma {:induction false} LexLeTransitive(a: string, b: string, c: string)
    requires LexLe(a, b) && LexLe(b, c)
    ensures LexLe(a, c)
  {
    if |a| > 0 && |b| > 0 && |c| > 0 && a[0] == b[0] && b[0] == c[0] {
      LexLeTransitive(a[1..], b[1..], c[1..]);
    }
  }

  /** `s` is in ascending order of `key`. */
  predicate SortedBy<T>(key: T -> string, s: seq<T>)
  {
    forall i, j :: 0 <= i < j < |s| ==> LexLe(key(s[i]), key(s[j]))
  }

  /** Nothing occurs twice. */
  predicate NoDuplicates<T(==,!new)>(s: seq<T>)
  {
    forall i, j :: 0 <= i < j < |s| ==> s[i] != s[j]
  }

  /** `x` inserted into a sorted list before the first element whose key is not below its own. */
  function InsertBy<T(==,!new)>(key: T -> string, x: T, s: seq<T>): (r: seq<T>)
    requires SortedBy(key, s)
    ensures SortedBy(key, r)
    ensures |r| == |s| + 1
    ensures forall y :: y in r <==> y == x || y in s
    ensures x !in s && NoDuplicates(s) ==> NoDuplicates(r)
  {
    if |s| == 0 then [x]
    else if LexLe(key(x), key(s[0])) then
      assert forall j :: 0 <= j < |s| ==> LexLe(key(x), key(s[j])) by {
        forall j | 0 <= j < |s| ensures LexLe(key(x), key(s[j])) {
          if j > 0 { LexLeTransitive(key(x), key(s[0]), key(s[j])); }
        }
      }
      [x] + s
    else
      LexLeTotal(key(x), key(s[0]));
      var tail := s[1..];
      var rest := InsertBy(key, x, tail);
      assert forall j :: 0 <= j < |rest| ==> LexLe(key(s[0]), key(rest[j])) by {
        forall j | 0 <= j < |rest| ensures LexLe(key(s[0]), key(rest[j])) {
          if rest[j] != x {
            assert rest[j] in tail;
            var k :| 0 <= k < |tail| && tail[k] == rest[j];
            assert s[k + 1] == rest[j];
          }
        }
      }
      assert s[0] !in tail ==> s[0] !in rest;
      [s[0]] + rest
  }

  /** Insertion sort by key: the order a string comparison of the keys gives. */
  function SortBy<T(==,!new)>(key: T -> string, s: seq<T>): (r: seq<T>)
    ensures SortedBy(key, r)
    ensures |r| == |s|
    ensures forall y :: y in r <==> y in s
    ensures NoDuplicates(s) ==> NoDuplicates(r)
  {
    if |s| == 0 then []
    else
      assert forall y :: y in s <==> y == s[0] || y in s[1..];
      InsertBy(key, s[0], SortBy(key, s[1..]))
  }

  /** The trinkets of one rarity, in catalogue order. */
  function OfRarity(s: seq<TrinketId>, r: Rarity): seq<TrinketId>
  {
    if |s| == 0 then []
    else (if RarityOf(s[0]) == r then [s[0]] else []) + OfRarity(s[1..], r)
  }

  /** Filtering keeps exactly the trinkets of the rarity and introduces no duplicates. */
  lemma {:induction false} OfRarityKeeps(s: seq<TrinketId>, r: Rarity)
    ensures forall t :: t in OfRarity(s, r) <==> t in s && RarityOf(t) == r
    ensures NoDuplicates(s) ==> NoDuplicates(OfRarity(s, r))
  {
    if |s| > 0 {
      OfRarityKeeps(s[1..], r);
      assert forall y :: y in s <==> y == s[0] || y in s[1..];
    }
  }

  /** `trinketsByRarity`: the catalogue grouped by rarity, each group sorted by key. */
  function ByRarity(r: Rarity): (group: seq<TrinketId>)
  {
    SortBy(Key, OfRarity(AllTrinkets, r))
  }

  /** Grouping by rarity is a partition of the catalogue into sorted, duplicate-free,
      non-empty groups: a trinket lies in exactly the group of its own rarity. */
  lemma ByRarityPartitions(r: Rarity, t: TrinketId)
    ensures t in ByRarity(r) <==> RarityOf(t) == r
    ensures SortedBy(Key, ByRarity(r))
    ensures NoDuplicates(ByRarity(r))
    ensures |ByRarity(r)| > 0
  {
    CatalogueIsComplete(t);
    OfRarityKeeps(AllTrinkets, r);
    var sample := match r case Common => Dante case Rare => Outis case Special => Rodion;
    CatalogueIsComplete(sample);
    assert sample in ByRarity(r);
  }

  lemma {:induction false} OfRarityAppend(a: seq<TrinketId>, b: seq<TrinketId>, r: Rarity)
    ensures OfRarity(a + b, r) == OfRarity(a, r) + OfRarity(b, r)
  {
    if |a| > 0 {
      assert (a + b)[1..] == a[1..] + b;
      OfRarityAppend(a[1..], b, r);
    } else {
      assert a + b == b;
    }
  }

  /** The number of trinkets of a rarity in the catalogue, summed over its four rows of five. */
  lemma OfRarityByRows(r: Rarity)
    ensures |OfRarity(AllTrinkets, r)|
      == |OfRarity(Row1, r)| + |OfRarity(Row2, r)| + |OfRarity(Row3, r)| + |OfRarity(Row4, r)|
  {
    OfRarityAppend(Row1 + Row2 + Row3, Row4, r);
    OfRarityAppend(Row1 + Row2, Row3, r);
    OfRarityAppend(Row1, Row2, r);
  }

  lemma Row1Counts()
    ensures |OfRarity(Row1, Common)| == 5 && |OfRarity(Row1, Rare)| == 0 && |OfRarity(Row1, Special)| == 0
  {
    assert Row1 == [Dante, Don, Faust, Gregor, Heathcliff];
    assert OfRarity([Dante, Don, Faust, Gregor, Heathcliff], Common) == [Dante, Don, Faust, Gregor, Heathcliff];
    assert OfRarity([Dante, Don, Faust, Gregor, Heathcliff], Rare) == [];
    assert OfRarity([Dante, Don, Faust, Gregor, Heathcliff], Special) == [];
  }

  lemma Row2Counts()
    ensures |OfRarity(Row2, Common)| == 3 && |OfRarity(Row2, Rare)| == 1 && |OfRarity(Row2, Special)| == 1
  {
    assert Row2 == [HongLu, Ishmael, Meursault, Outis, Rodion];
    assert OfRarity([HongLu, Ishmael, Meursault, Outis, Rodion], Common) == [HongLu, Ishmael, Meursault];
    assert OfRarity([HongLu, Ishmael, Meursault, Outis, Rodion], Rare) == [Outis];
    assert OfRarity([HongLu, Ishmael, Meursault, Outis, Rodion], Special) == [Rodion];
  }

  lemma Row3Counts()
    ensures |OfRarity(Row3, Common)| == 2 && |OfRarity(Row3, Rare)| == 0 && |OfRarity(Row3, Special)| == 3
  {
    assert Row3 == [Ryoshu, Sinclair, Cathy, Erlking, XiaojinCall];
    assert OfRarity([Ryoshu, Sinclair, Cathy, Erlking, XiaojinCall], Common) == [Ryoshu, Sinclair];
    assert OfRarity([Ryoshu, Sinclair, Cathy, Erlking, XiaojinCall], Rare) == [];
    assert OfRarity([Ryoshu, Sinclair, Cathy, Erlking, XiaojinCall], Special) == [Cathy, Erlking, XiaojinCall];
  }

  lemma Row4Counts()
    ensures |OfRarity(Row4, Common)| == 0 && |OfRarity(Row4, Rare)| == 4 && |OfRarity(Row4, Special)| == 1
  {
    assert Row4 == [CopiumElder, Ayin, FaustDerp, IshmaelSad, ArayaWatermellon];
    assert OfRarity([CopiumElder, Ayin, FaustDerp, IshmaelSad, ArayaWatermellon], Common) == [];
    assert OfRarity([CopiumElder, Ayin, FaustDerp, IshmaelSad, ArayaWatermellon], Rare) == [CopiumElder, Ayin, FaustDerp, IshmaelSad];
    assert OfRarity([CopiumElder, Ayin, FaustDerp, IshmaelSad, ArayaWatermellon], Special) == [ArayaWatermellon];
  }

  /** The group sizes: ten common, five rare, five special trinkets. */
  lemma GroupSizes()
    ensures |ByRarity(Common)| == 10
    ensures |ByRarity(Rare)| == 5
    ensures |ByRarity(Special)| == 5
  {
    Row1Counts();
    Row2Counts();
    Row3Counts();
    Row4Counts();
    OfRarityByRows(Common);
    OfRarityByRows(Rare);
    OfRarityByRows(Special);
  }
}
