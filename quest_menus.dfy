/** The menus around the levels: wrap-around cursors, the level-complete
    menu, the shop and its purchase rule, and the progress kept between
    levels (crystals, coins, upgrades and the highest level unlocked). */
module QuestMenus {

  // ------------------------------------------------------------ cursors

  /** The three values of a % n a wrapping cursor meets: within [0, n) it
      is a itself, one step past the end it is 0, and one step before the
      start it is n - 1. */
  lemma WrapMod(a: int, n: int)
    requires n > 0
    ensures 0 <= a < n ==> a % n == a
    ensures a == n ==> a % n == 0
    ensures a == -1 ==> a % n == n - 1
  {
    var q, r := a / n, a % n;
    assert a == q * n + r && 0 <= r < n;
    if q >= 1 {
      assert q * n == (q - 1) * n + n;
      assert (q - 1) * n >= 0;
    } else if q <= -2 {
      assert q * n == (q + 2) * n - 2 * n;
      assert (q + 2) * n <= 0;
    }
  }

  /** The cursor moves up over n options, from the first to the last.
      The game's % floors, which for a positive n agrees with Dafny's. */
  function MenuUp(selected: int, n: int): (s: int)
    requires n > 0
    ensures 0 <= s < n
    ensures 0 <= selected < n ==> s == if selected == 0 then n - 1 else selected - 1
  {
    WrapMod(selected - 1, n);
    (selected - 1) % n
  }

  /** The cursor moves down over n options, from the last to the first. */
  function MenuDown(selected: int, n: int): (s: int)
    requires n > 0
    ensures 0 <= s < n
    ensures 0 <= selected < n ==> s == if selected == n - 1 then 0 else selected + 1
  {
    WrapMod(selected + 1, n);
    (selected + 1) % n
  }

  /** Up and down undo each other on every cursor position. */
  lemma UpDownInverse(selected: int, n: int)
    requires n > 0 && 0 <= selected < n
    ensures MenuDown(MenuUp(selected, n), n) == selected
    ensures MenuUp(MenuDown(selected, n), n) == selected
  {
  }

  /** k presses of down. */
  function DownN(selected: int, n: int, k: nat): (s: int)
    requires n > 0
  {
    if k == 0 then selected else MenuDown(DownN(selected, n, k - 1), n)
  }

  /** Pressing down k times, for k up to n, lands k places further on,
      around the list; so n presses bring the cursor back where it was. */
  lemma {:induction false} DownNWraps(selected: int, n: int, k: nat)
    requires n > 0 && 0 <= selected < n && k <= n
    ensures DownN(selected, n, k) == if selected + k < n then selected + k else selected + k - n
    ensures k == n ==> DownN(selected, n, k) == selected
  {
    if k > 0 {
      DownNWraps(selected, n, k - 1);
    }
  }

  // ------------------------------------------------------------ key presses

  /** The key events the menus react to; Other stands for every other key.
      Up, Down and Enter are the arrow keys and return in both menus; the
      level-complete menu also reads W as Up, S as Down and space as Enter,
      which the shop ignores (they map to Other there). Escape leaves the
      shop and is ignored by the level-complete menu; Quit is the window
      closing. */
  datatype MenuKey = Up | Down | Enter | Escape | Quit | Other

  // ------------------------------------------------------------ level-complete menu

  /** The options after a level: next level, replay it, or back to the main menu. */
  datatype Choice = NextLevel | ReplayLevel | MainMenu

  /** How the level-complete menu ends: the window closed, an option was
      picked, or the events ran out with the menu still open. */
  datatype MenuResult = Closed | Picked(choice: Choice) | StillOpen

  const CompleteOptions := 3

  /** The option at a cursor position. */
  function ChoiceAt(selected: int): (c: Choice)
    requires 0 <= selected < CompleteOptions
    ensures selected == 0 <==> c == NextLevel
    ensures selected == 1 <==> c == ReplayLevel
    ensures selected == 2 <==> c == MainMenu
  {
    if selected == 0 then NextLevel else if selected == 1 then ReplayLevel else MainMenu
  }

  /** The menu from cursor position selected, over the remaining events. */
  function CompleteMenu(selected: int, events: seq<MenuKey>): (r: MenuResult)
    requires 0 <= selected < CompleteOptions
    decreases |events|
  {
    if events == [] then StillOpen
    else match events[0]
      case Quit => Closed
      case Up => CompleteMenu(MenuUp(selected, CompleteOptions), events[1..])
      case Down => CompleteMenu(MenuDown(selected, CompleteOptions), events[1..])
      case Enter => Picked(ChoiceAt(selected))
      case _ => CompleteMenu(selected, events[1..])
  }

  /** Pressing enter straight away picks the next level; going up once
      first wraps to the last option. */
  lemma CompleteMenuFirstKeys(rest: seq<MenuKey>)
    ensures CompleteMenu(0, [Enter] + rest) == Picked(NextLevel)
    ensures CompleteMenu(0, [Up, Enter] + rest) == Picked(MainMenu)
  {
    assert ([Up, Enter] + rest)[1..] == [Enter] + rest;
  }

  /** The level-complete menu's event loop, from the first option. */
  method RunCompleteMenu(events: seq<MenuKey>) returns (r: MenuResult)
    ensures r == CompleteMenu(0, events)
    ensures r.Picked? ==> Enter in events
    ensures r == Closed ==> Quit in events
  {
    var selected := 0;
    var i := 0;
    while i < |events|
      invariant 0 <= i <= |events|
      invariant 0 <= selected < CompleteOptions
      invariant CompleteMenu(selected, events[i..]) == CompleteMenu(0, events)
      invariant Enter !in events[..i] && Quit !in events[..i]
    {
      assert events[i..][1..] == events[i + 1..];
      assert events[..i + 1] == events[..i] + [events[i]];
      match events[i] {
        case Quit =>
          return Closed;
        case Up =>
          selected := MenuUp(selected, CompleteOptions);
        case Down =>
          selected := MenuDown(selected, CompleteOptions);
        case Enter =>
          return Picked(ChoiceAt(selected));
        case _ =>
      }
      i := i + 1;
    }
    r := StillOpen;
  }

  // ------------------------------------------------------------ the shop

  /** What an item does when bought. */
  datatype Effect = MoreHealth | MoreSpeed | MoreLives | GoBack

  datatype ShopItem = ShopItem(name: string, cost: nat, effect: Effect)

  /** The shop's items, in the order they are listed. */
  const ShopItems: seq<ShopItem> := [
    ShopItem("Health Potion", 5, MoreHealth),
    ShopItem("Speed Boost", 10, MoreSpeed),
    ShopItem("Extra Lives", 15, MoreLives),
    ShopItem("Go Back", 0, GoBack)
  ]

  /** Maximum health a potion adds. */
  const PotionHealth := 25

  /** The progress kept between levels. */
  datatype Stats = Stats(crystals: int, coins: int, maxHealth: int, speedBonus: int,
                         lives: int, highestLevel: int)

  /** Buying an item: when the crystals cover its cost, the cost is taken
      and the upgrade applied; otherwise, and for the way out, nothing
      changes. */
  function Buy(s: Stats, item: ShopItem): (r: Stats)
    ensures item.effect == GoBack || s.crystals < item.cost ==> r == s
    ensures item.effect != GoBack && s.crystals >= item.cost ==> r.crystals == s.crystals - item.cost
    ensures r.coins == s.coins && r.highestLevel == s.highestLevel
    ensures s.crystals >= 0 ==> r.crystals >= 0
    ensures r.maxHealth >= s.maxHealth && r.speedBonus >= s.speedBonus && r.lives >= s.lives
    ensures item.effect == MoreHealth && s.crystals >= item.cost ==>
              r == s.(crystals := s.crystals - item.cost, maxHealth := s.maxHealth + PotionHealth)
    ensures item.effect == MoreSpeed && s.crystals >= item.cost ==>
              r == s.(crystals := s.crystals - item.cost, speedBonus := s.speedBonus + 1)
    ensures item.effect == MoreLives && s.crystals >= item.cost ==>
              r == s.(crystals := s.crystals - item.cost, lives := s.lives + 1)
  {
    if item.effect == GoBack || s.crystals < item.cost then s
    else
      var paid := s.(crystals := s.crystals - item.cost);
      match item.effect
      case MoreHealth => paid.(maxHealth := paid.maxHealth + PotionHealth)
      case MoreSpeed => paid.(speedBonus := paid.speedBonus + 1)
      case MoreLives => paid.(lives := paid.lives + 1)
  }

  /** What the progress is worth in crystals, counting every upgrade at the
      price the shop asks for it (in units of 1/25 crystal, so a potion's
      25 health points are worth its 5 crystals). The weighting is this
      model's own, read off the price list; the game keeps no such value.
      It makes the price list checkable as a whole: a mispriced item, or an
      item that added more than it cost, would break BuyKeepsWorth. */
  function Worth(s: Stats): int {
    25 * s.crystals + 5 * s.maxHealth + 250 * s.speedBonus + 375 * s.lives
  }

  /** Every listed item is priced at exactly what it adds: buying never
      changes the worth of the progress. */
  lemma BuyKeepsWorth(s: Stats, i: nat)
    requires i < |ShopItems|
    ensures Worth(Buy(s, ShopItems[i])) == Worth(s)
  {
  }

  /** The shop from cursor position selected over the remaining events:
      the progress when the shop is left or the events run out. */
  function Shop(s: Stats, selected: int, events: seq<MenuKey>): (r: Stats)
    requires 0 <= selected < |ShopItems|
    decreases |events|
  {
    if events == [] then s
    else match events[0]
      case Quit => s
      case Escape => s
      case Up => Shop(s, MenuUp(selected, |ShopItems|), events[1..])
      case Down => Shop(s, MenuDown(selected, |ShopItems|), events[1..])
      case Enter =>
        if ShopItems[selected].effect == GoBack then s
        else Shop(Buy(s, ShopItems[selected]), selected, events[1..])
      case Other => Shop(s, selected, events[1..])
  }

  /** A visit to the shop never changes the worth of the progress, never
      takes the crystals below zero, and leaves coins and the highest level
      alone. */
  lemma {:induction false} ShopKeepsWorth(s: Stats, selected: int, events: seq<MenuKey>)
    requires 0 <= selected < |ShopItems|
    ensures Worth(Shop(s, selected, events)) == Worth(s)
    ensures s.crystals >= 0 ==> Shop(s, selected, events).crystals >= 0
    ensures Shop(s, selected, events).coins == s.coins
    ensures Shop(s, selected, events).highestLevel == s.highestLevel
    decreases |events|
  {
    if events != [] {
      match events[0]
      case Quit =>
      case Escape =>
      case Up => ShopKeepsWorth(s, MenuUp(selected, |ShopItems|), events[1..]);
      case Down => ShopKeepsWorth(s, MenuDown(selected, |ShopItems|), events[1..]);
      case Enter =>
        if ShopItems[selected].effect != GoBack {
          BuyKeepsWorth(s, selected);
          ShopKeepsWorth(Buy(s, ShopItems[selected]), selected, events[1..]);
        }
      case Other => ShopKeepsWorth(s, selected, events[1..]);
    }
  }

  // ------------------------------------------------------------ progress

  /** The level to unlock after winning level levelNum: the one after it,
      unless a later one is already unlocked. */
  function Unlocked(highest: int, levelNum: int): (h: int)
    ensures h >= highest && h > levelNum
    ensures h == highest || h == levelNum + 1
  {
    if levelNum >= highest then levelNum + 1 else highest
  }

  /** Winning levels in any order unlocks exactly one past the best of
      them and of what was unlocked before. */
  lemma UnlockedIsMax(highest: int, a: int, b: int)
    ensures Unlocked(Unlocked(highest, a), b) == Unlocked(Unlocked(highest, b), a)
  {
  }

  /** The progress record the game keeps and updates in place. */
  class Progress {
    var crystals: int
    var coins: int
    var maxHealth: int
    var speedBonus: int
    var lives: int
    var highestLevel: int

    function Snapshot(): Stats
      reads this
    {
      Stats(crystals, coins, maxHealth, speedBonus, lives, highestLevel)
    }

    /** The progress of a new game. */
    constructor ()
      ensures Snapshot() == Stats(0, 0, 100, 0, 999, 1)
    {
      crystals, coins, maxHealth, speedBonus, lives, highestLevel := 0, 0, 100, 0, 999, 1;
    }

    /** Enter on the shop item at position selected. */
    method Purchase(selected: int)
      requires 0 <= selected < |ShopItems|
      modifies this
      ensures Snapshot() == Buy(old(Snapshot()), ShopItems[selected])
    {
      var item := ShopItems[selected];
      if item.effect != GoBack && crystals >= item.cost {
        crystals := crystals - item.cost;
        match item.effect
        case MoreHealth => maxHealth := maxHealth + PotionHealth;
        case MoreSpeed => speedBonus := speedBonus + 1;
        case MoreLives => lives := lives + 1;
      }
    }

    /** The shop's event loop, from the first item. */
    method VisitShop(events: seq<MenuKey>)
      modifies this
      ensures Snapshot() == Shop(old(Snapshot()), 0, events)
    {
      var selected := 0;
      var i := 0;
      while i < |events|
        invariant 0 <= i <= |events|
        invariant 0 <= selected < |ShopItems|
        invariant Shop(Snapshot(), selected, events[i..]) == Shop(old(Snapshot()), 0, events)
      {
        assert events[i..][1..] == events[i + 1..];
        match events[i] {
          case Quit =>
            return;
          case Escape =>
            return;
          case Up =>
            selected := MenuUp(selected, |ShopItems|);
          case Down =>
            selected := MenuDown(selected, |ShopItems|);
          case Enter =>
            if ShopItems[selected].effect == GoBack {
              return;
            }
            Purchase(selected);
          case Other =>
        }
        i := i + 1;
      }
    }

    /** A won level adds its crystals and coins and may unlock the next. */
    method RecordWin(levelNum: int, levelCrystals: int, levelCoins: int)
      modifies this
      ensures Snapshot() == old(Snapshot()).(crystals := old(crystals) + levelCrystals,
                                            coins := old(coins) + levelCoins,
                                            highestLevel := Unlocked(old(highestLevel), levelNum))
    {
      crystals := crystals + levelCrystals;
      coins := coins + levelCoins;
      if levelNum >= highestLevel {
        highestLevel := levelNum + 1;
      }
    }
  }
}
