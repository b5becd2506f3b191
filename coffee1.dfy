/**
 * demos/goroutine/coffee1/coffee1.go: making coffee from water and beans.
 * Every quantity is a Go `int` under its own named type; the per-cup
 * conversions, boiling, grinding and brewing are pure, and `main` runs three
 * counting loops (boil in 600 ml batches, grind in 20 g batches, brew four
 * cups at a time). Sleeps and printing are not modelled.
 */
module Coffee1 {
  import opened GoInt

  newtype Bean = int
  newtype GroundBean = int
  newtype Water = int
  newtype HotWater = int
  newtype Coffee = int

  const GramBeans: Bean := 1
  const GramGroundBeans: GroundBean := 1
  const MilliLiterWater: Water := 1
  const MilliLiterHotWater: HotWater := 1
  const CupsCoffee: Coffee := 1

  /** `Coffee.Water()`: the water needed for `cups` cups, 180 ml each. */
  function WaterFor(cups: Coffee): (w: Water)
    ensures w as int == 180 * cups as int
  {
    (180 * cups) as Water / MilliLiterWater
  }

  /** `Coffee.HotWater()`: the hot water needed for `cups` cups, 180 ml each. */
  function HotWaterFor(cups: Coffee): (hw: HotWater)
    ensures hw as int == 180 * cups as int
  {
    (180 * cups) as HotWater / MilliLiterHotWater
  }

  /** `Coffee.Beans()`: the beans needed for `cups` cups, 20 g each. */
  function BeansFor(cups: Coffee): (b: Bean)
    ensures b as int == 20 * cups as int
  {
    (20 * cups) as Bean / GramBeans
  }

  /** `Coffee.GroundBeans()`: the ground beans needed for `cups` cups, 20 g each. */
  function GroundBeansFor(cups: Coffee): (gb: GroundBean)
    ensures gb as int == 20 * cups as int
  {
    (20 * cups) as GroundBean / GramGroundBeans
  }

  /** `boil`: the same quantity, now hot. */
  function Boil(water: Water): (hw: HotWater)
    ensures hw as int == water as int
  {
    water as HotWater
  }

  /** `grind`: the same quantity, now ground. */
  function Grind(beans: Bean): (gb: GroundBean)
    ensures gb as int == beans as int
  {
    beans as GroundBean
  }

  /**
   * `brew`: the smaller of the cups the hot water covers and the cups the
   * ground beans cover (Go's truncating `/`). For non-negative supplies this
   * is the largest number of cups both supplies suffice for.
   */
  function Brew(hotWater: HotWater, groundBeans: GroundBean): (cups: Coffee)
    ensures hotWater >= 0 && groundBeans >= 0 ==>
      && 0 <= cups
      && 180 * cups as int <= hotWater as int
      && 20 * cups as int <= groundBeans as int
      && (hotWater as int < 180 * (cups as int + 1) || groundBeans as int < 20 * (cups as int + 1))
    ensures hotWater < 0 || groundBeans < 0 ==> cups <= 0
    ensures cups as int == Min(Quo(hotWater as int, 180), Quo(groundBeans as int, 20))
  {
    var cups1 := Quo(hotWater as int, HotWaterFor(1 * CupsCoffee) as int) as Coffee;
    var cups2 := Quo(groundBeans as int, GroundBeansFor(1 * CupsCoffee) as int) as Coffee;
    if cups1 < cups2 then cups1 else cups2
  }

  // ---- what the loops compute ---------------------------------------------

  /**
   * How often `for total > 0 { total -= batch; ... }` runs: the ceiling of
   * total / batch, and it leaves total in (-batch, 0].
   */
  function BatchCount(total: int, batch: int): (n: nat)
    requires batch > 0
    ensures total <= 0 ==> n == 0
    ensures total > 0 ==> -batch < total - batch * n <= 0
    decreases total
  {
    if total <= 0 then 0 else 1 + BatchCount(total - batch, batch)
  }

  /** BatchCount is the ceiling of total / batch. */
  lemma {:induction false} BatchCountIsCeiling(total: int, batch: int)
    requires batch > 0 && total >= 0
    ensures BatchCount(total, batch) == (total + batch - 1) / batch
    decreases total
  {
    if total > 0 {
      BatchCountIsCeiling(if total >= batch then total - batch else 0, batch);
      if total < batch {
        assert BatchCount(total - batch, batch) == 0;
      }
      DivShift(total - 1, batch);
    }
  }

  lemma DivShift(x: int, batch: int)
    requires batch > 0 && x >= 0
    ensures (x + batch) / batch == x / batch + 1
    ensures x < batch ==> x / batch == 0
  {
    DivUnique(x + batch, batch, x / batch + 1, x % batch);
  }

  /**
   * How often the brewing loop runs: while at least 720 ml of hot water and
   * 80 g of ground beans (four cups' worth) are left.
   */
  function BrewRounds(hotWater: int, groundBeans: int): nat
    decreases hotWater
  {
    if hotWater >= 720 && groundBeans >= 80 then 1 + BrewRounds(hotWater - 720, groundBeans - 80)
    else 0
  }

  /** For non-negative supplies the brewing loop runs min(hw / 720, gb / 80) times. */
  lemma {:induction false} BrewRoundsIsMin(hotWater: int, groundBeans: int)
    requires hotWater >= 0 && groundBeans >= 0
    ensures BrewRounds(hotWater, groundBeans) == Min(hotWater / 720, groundBeans / 80)
    decreases hotWater
  {
    if hotWater >= 720 && groundBeans >= 80 {
      BrewRoundsIsMin(hotWater - 720, groundBeans - 80);
      assert (hotWater - 720) / 720 == hotWater / 720 - 1;
      assert (groundBeans - 80) / 80 == groundBeans / 80 - 1;
    }
  }

  function Min(a: int, b: int): int { if a < b then a else b }

  /** A negative supply counts as a negative number of cups, truncated toward zero. */
  lemma BrewNegativeSupply()
    ensures Brew(-200, 100) == -1
  {
    var q := Quo(-200, 180);
    assert Quo(100, 20) == 5;
    assert q == -1 by {
      assert Abs(180 * q) <= 200 < Abs(180 * q) + 180;
      assert q <= 0;
    }
  }

  /** Brewing one round of four cups' ingredients yields four cups. */
  lemma FourCupsPerRound()
    ensures Brew(HotWaterFor(4), GroundBeansFor(4)) == 4
  {
  }

  /** With 20 cups planned: 3600 ml boiled in 6 batches, 400 g ground in 20, 5 brewing rounds. */
  lemma TwentyCupsPlan()
    ensures WaterFor(20) == 3600 && BeansFor(20) == 400
    ensures BatchCount(3600, 600) == 6 && BatchCount(400, 20) == 20
    ensures BrewRounds(3600, 400) == 5
  {
    BatchCountIsCeiling(3600, 600);
    BatchCountIsCeiling(400, 20);
    BrewRoundsIsMin(3600, 400);
  }

  // ---- main ----------------------------------------------------------------

  /** The boiling loop of `main`: 600 ml at a time while water is left. */
  method BoilAll(water0: Water) returns (water: Water, hotWater: HotWater)
    ensures hotWater as int == 600 * BatchCount(water0 as int, 600)
    ensures water as int == water0 as int - hotWater as int
  {
    water := water0;
    hotWater := 0;
    while water > 0
      invariant hotWater as int == 600 * (BatchCount(water0 as int, 600) - BatchCount(water as int, 600))
      invariant water as int == water0 as int - hotWater as int
      invariant BatchCount(water as int, 600) <= BatchCount(water0 as int, 600)
    {
      water := water - 600 * MilliLiterWater;
      hotWater := hotWater + Boil(600 * MilliLiterWater);
    }
  }

  /** The grinding loop of `main`: 20 g at a time while beans are left. */
  method GrindAll(beans0: Bean) returns (beans: Bean, groundBeans: GroundBean)
    ensures groundBeans as int == 20 * BatchCount(beans0 as int, 20)
    ensures beans as int == beans0 as int - groundBeans as int
  {
    beans := beans0;
    groundBeans := 0;
    while beans > 0
      invariant groundBeans as int == 20 * (BatchCount(beans0 as int, 20) - BatchCount(beans as int, 20))
      invariant beans as int == beans0 as int - groundBeans as int
      invariant BatchCount(beans as int, 20) <= BatchCount(beans0 as int, 20)
    {
      beans := beans - 20 * GramBeans;
      groundBeans := groundBeans + Grind(20 * GramBeans);
    }
  }

  /**
   * The brewing loop of `main`: four cups at a time while four cups' worth
   * of both hot water and ground beans is left.
   */
  method BrewAll(hotWater0: HotWater, groundBeans0: GroundBean)
    returns (hotWater: HotWater, groundBeans: GroundBean, coffee: Coffee)
    requires 0 <= hotWater0 && 0 <= groundBeans0
    ensures coffee as int == 4 * BrewRounds(hotWater0 as int, groundBeans0 as int)
    ensures hotWater as int == hotWater0 as int - 180 * coffee as int
    ensures groundBeans as int == groundBeans0 as int - 20 * coffee as int
    ensures 0 <= hotWater && 0 <= groundBeans && (hotWater < 720 || groundBeans < 80)
  {
    hotWater, groundBeans := hotWater0, groundBeans0;
    coffee := 0;
    var cups := 4 * CupsCoffee;
    while hotWater >= HotWaterFor(cups) && groundBeans >= GroundBeansFor(cups)
      invariant 0 <= hotWater && 0 <= groundBeans
      invariant coffee as int == 4 * (BrewRounds(hotWater0 as int, groundBeans0 as int) - BrewRounds(hotWater as int, groundBeans as int))
      invariant hotWater as int == hotWater0 as int - 180 * coffee as int
      invariant groundBeans as int == groundBeans0 as int - 20 * coffee as int
      invariant BrewRounds(hotWater as int, groundBeans as int) <= BrewRounds(hotWater0 as int, groundBeans0 as int)
    {
      hotWater := hotWater - HotWaterFor(cups);
      groundBeans := groundBeans - GroundBeansFor(cups);
      FourCupsPerRound();
      coffee := coffee + Brew(HotWaterFor(cups), GroundBeansFor(cups));
    }
  }

  /**
   * `main`, for `amountCoffee` cups (the program fixes 20): plan the
   * ingredients, then boil, grind and brew. Returns the final values of its
   * five quantities.
   */
  method MakeCoffee(amountCoffee: Coffee)
    returns (water: Water, hotWater: HotWater, beans: Bean, groundBeans: GroundBean, coffee: Coffee)
    ensures var w, b := 180 * amountCoffee as int, 20 * amountCoffee as int;
      var boiled, ground := 600 * BatchCount(w, 600), 20 * BatchCount(b, 20);
      var rounds := BrewRounds(boiled, ground);
      && water as int == w - boiled
      && beans as int == b - ground
      && coffee as int == 4 * rounds
      && hotWater as int == boiled - 720 * rounds
      && groundBeans as int == ground - 80 * rounds
    ensures amountCoffee > 0 ==> -600 < water <= 0 && -20 < beans <= 0
    ensures 0 <= hotWater && 0 <= groundBeans && (hotWater < 720 || groundBeans < 80)
    ensures amountCoffee == 20 ==> coffee == 20 && hotWater == 0 && groundBeans == 0
  {
    water := WaterFor(amountCoffee);
    beans := BeansFor(amountCoffee);
    var boiled, ground;
    water, boiled := BoilAll(water);
    beans, ground := GrindAll(beans);
    hotWater, groundBeans, coffee := BrewAll(boiled, ground);
    if amountCoffee == 20 {
      TwentyCupsPlan();
    }
  }
}
