/**
 * demos/goroutine/coffee2/coffee2.go: the same coffee program with
 * `runtime/trace` instrumentation. The unit types and per-cup conversions
 * are the same definitions as in coffee1.go and are taken from Coffee1;
 * `boil`, `grind` and `brew` take a trace context that only names trace
 * regions, and `RunMyProgram` runs the three loops for 20 cups. Tracing,
 * sleeps and printing are not modelled.
 */
module Coffee2 {
  import opened Coffee1
  import GoInt

  /** The trace context; it only labels trace regions. */
  datatype Context = Context(task: string)

  /** `boil(ctx, water)`: coffee1's boil, whatever the context. */
  function Boil(ctx: Context, water: Water): (hw: HotWater)
    ensures hw as int == water as int
    ensures hw == Coffee1.Boil(water)
  {
    water as HotWater
  }

  /** `grind(ctx, beans)`: coffee1's grind, whatever the context. */
  function Grind(ctx: Context, beans: Bean): (gb: GroundBean)
    ensures gb as int == beans as int
    ensures gb == Coffee1.Grind(beans)
  {
    beans as GroundBean
  }

  /** `brew(ctx, hotWater, groundBeans)`: coffee1's brew, whatever the context. */
  function Brew(ctx: Context, hotWater: HotWater, groundBeans: GroundBean): (cups: Coffee)
    ensures cups == Coffee1.Brew(hotWater, groundBeans)
  {
    var cups1 := GoInt.Quo(hotWater as int, HotWaterFor(1 * CupsCoffee) as int) as Coffee;
    var cups2 := GoInt.Quo(groundBeans as int, GroundBeansFor(1 * CupsCoffee) as int) as Coffee;
    if cups1 < cups2 then cups1 else cups2
  }

  /** None of the three steps looks at the context. */
  lemma ContextIrrelevant(c1: Context, c2: Context, w: Water, b: Bean, hw: HotWater, gb: GroundBean)
    ensures Boil(c1, w) == Boil(c2, w) && Grind(c1, b) == Grind(c2, b)
    ensures Brew(c1, hw, gb) == Brew(c2, hw, gb)
  {
  }

  /**
   * `RunMyProgram`: 3600 ml of water boiled in six 600 ml batches, 400 g of
   * beans ground in twenty 20 g batches, then five rounds of four cups.
   * Returns the final values of its five quantities.
   */
  method RunMyProgram()
    returns (water: Water, hotWater: HotWater, beans: Bean, groundBeans: GroundBean, coffee: Coffee)
    ensures water == 0 && beans == 0
    ensures hotWater == 0 && groundBeans == 0
    ensures coffee == 20
  {
    var amountCoffee: Coffee := 20 * CupsCoffee;
    var ctx := Context("make coffee");

    water := WaterFor(amountCoffee);
    beans := BeansFor(amountCoffee);
    TwentyCupsPlan();

    hotWater := 0;
    while water > 0
      invariant hotWater as int == 600 * (6 - BatchCount(water as int, 600))
      invariant water as int == 3600 - hotWater as int
      invariant BatchCount(water as int, 600) <= 6
    {
      water := water - 600 * MilliLiterWater;
      hotWater := hotWater + Boil(ctx, 600 * MilliLiterWater);
    }

    groundBeans := 0;
    while beans > 0
      invariant groundBeans as int == 20 * (20 - BatchCount(beans as int, 20))
      invariant beans as int == 400 - groundBeans as int
      invariant BatchCount(beans as int, 20) <= 20
    {
      beans := beans - 20 * GramBeans;
      groundBeans := groundBeans + Grind(ctx, 20 * GramBeans);
    }

    coffee := 0;
    var cups := 4 * CupsCoffee;
    while hotWater >= HotWaterFor(cups) && groundBeans >= GroundBeansFor(cups)
      invariant 0 <= hotWater && 0 <= groundBeans
      invariant coffee as int == 4 * (5 - BrewRounds(hotWater as int, groundBeans as int))
      invariant hotWater as int == 3600 - 180 * coffee as int
      invariant groundBeans as int == 400 - 20 * coffee as int
      invariant BrewRounds(hotWater as int, groundBeans as int) <= 5
    {
      hotWater := hotWater - HotWaterFor(cups);
      groundBeans := groundBeans - GroundBeansFor(cups);
      FourCupsPerRound();
      coffee := coffee + Brew(ctx, HotWaterFor(cups), GroundBeansFor(cups));
    }
  }
}
