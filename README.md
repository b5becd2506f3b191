# go-quick-guide demos, modelled in Dafny

A model of six small Go programs from the go-quick-guide tutorial repository,
with proofs of what they compute.

- **Sharded call coordinator** (`demos/singleflight/shardcalls/main.go`).
  `nextPowerOfTwo` rounds a shard count up to a power of two, `NewShardCalls`
  allocates that many `singleflight.Group` shards and keeps the mask
  `size - 1`, and `getShard` sends a key to `FNV-1a(key) & mask`. The model
  uses Go's 64-bit `int` with wrap-around (`go_int.dfy`). Its bitwise `|`,
  `&`, `^` and arithmetic `>>` work on unbounded two's-complement integers
  (`bits.dfy`), and FNV-1a 64 is a left fold over the key's bytes (`fnv.dfy`).
  Proved: the rounding yields the least power of two at least `v` for
  `1 <= v <= 2^32`, and it is idempotent. A coordinator built that way always
  routes inside its shard slice, to the shard `hash mod size`. A count of 0
  (or -1) builds zero shards and a mask of 2^64 - 1, so every `Do` panics.
- **Coffee** (`demos/goroutine/coffee1/coffee1.go` and its traced twin
  `coffee2.go`). The quantities are named `int` types with per-cup
  conversions: 180 ml of water and 20 g of beans a cup. `boil` and `grind`
  return the same quantity, and `brew` makes the smaller of the two cup
  counts its inputs cover. The three loops of `main` are modelled as
  imperative code with invariants, against the functions `BatchCount`
  (a ceiling division) and `BrewRounds` (a minimum of two quotients). For the
  program's 20 cups: 6 boils, 20 grinds and 5 brewing rounds give 20 cups,
  with nothing left over.
- **Todo web app** (`demos/restful/todo3/main.go`). The package-level todo
  list and logged-in user are a class. Its methods are the handlers that
  change them: add, toggle (through `strconv.Atoi`, error ignored), login
  and logout. `getTodos` gives the page data. The credential check and
  `getRole` are pure functions. A malformed toggle index reads as 0 and so
  toggles the first todo, unless its leading digits already pass 2^64 - 1:
  `strconv.Atoi` then stops with a range error before it reaches the bad
  byte, returns the int64 bound for the sign, and nothing is toggled.
- **Package demo** (`demos/package/package.go`). `add`, `multiply` and the
  loop-based `power` work on wrapping 64-bit ints. `power(x, y)` is `x^y`
  mod 2^64 (read as a signed value) for `y >= 0` and 1 for `y <= 0`.
  `power(x, 2) == multiply(x, x)`, and `2^64` wraps to 0.
- **Date helper** (`demos/web/web10/web10.go`). `FormatAsDate` writes
  `"%d-%02d-%02d"`. `ParseDate` reads that text back (a round trip), and
  a four-digit year gives the ten characters `YYYY-MM-DD`. The demo's
  17 August 2019 becomes `"2019-08-17"`.

A requested count `<= 0` never yields a shard. For 0 and -1 (and many other
negative counts) the code builds an empty shard slice with mask
`uint64(-1)`, and every later `Do` panics with an index out of range
(`NewShardCallsZero`, `NewShardCallsMinusOne`, `ZeroShardsAlwaysPanic`).
Other negative counts, such as the smallest int64, round to a negative
length and panic in `make` (`NextPowerOfTwoOfMinInt`). The modelled failure of
the construction is Go's panic on a negative `make` length. That happens
exactly when the rounding result is negative, as `NewShardCalls`'s contract
states, and a positive count can round to a negative value: the largest
int64 smears to 2^63 - 1 and the increment wraps to -2^63
(`NextPowerOfTwoOfMaxInt`).

## Model

| member | source | states |
|---|---|---|
| `ShardCalls.NewShardCalls` | demos/singleflight/shardcalls/main.go:17-23 | construction succeeds exactly when the rounded count is non-negative (a negative `make` length panics); the shard slice has the rounded length and the mask is `uint64(len - 1)` |
| `ShardCalls.GetShard` | demos/singleflight/shardcalls/main.go:30-34 | the shard index never exceeds the mask |
| `ShardCalls.RouteDo` | demos/singleflight/shardcalls/main.go:25-28 | indexing the shards succeeds exactly when `getShard(key) < len(shards)`, and then selects that shard |
| `ShardCalls.Smear` | demos/singleflight/shardcalls/main.go:38-42 | the five `v |= v >> k` steps; characterised by `SmearBits` and the lemmas after it |
| `ShardCalls.NextPowerOfTwo` | demos/singleflight/shardcalls/main.go:36-45 | decrement, smear, increment, each wrapping at 64 bits; characterised by `NextPowerOfTwoRounds` and the lemmas after it |
| `ShardCalls.SmearNonNegative` | demos/singleflight/shardcalls/main.go:38-42 | the five OR-shift steps keep a non-negative value non-negative |
| `ShardCalls.SmearBits` | demos/singleflight/shardcalls/main.go:38-42 | after the five steps, bit i is set iff some bit among positions i..i+31 of the input is set |
| `ShardCalls.SmearFillsLowBits` | demos/singleflight/shardcalls/main.go:38-42 | for `0 <= x < 2^32` the steps turn x into `2^bitlen(x) - 1`: every bit up to the highest set bit |
| `ShardCalls.NextPowerOfTwoRounds` | demos/singleflight/shardcalls/main.go:36-45 | for `1 <= v <= 2^32` the result is `2^bitlen(v-1)`, and `v <= result < 2v`: the least power of two at least v |
| `ShardCalls.NextPowerOfTwoFixesPowers` | demos/singleflight/shardcalls/main.go:36-45 | a power of two up to 2^32 is returned unchanged |
| `ShardCalls.NextPowerOfTwoIdempotent` | demos/singleflight/shardcalls/main.go:36-45 | rounding twice equals rounding once, for `1 <= v <= 2^32` |
| `ShardCalls.NextPowerOfTwoOfZero` | demos/singleflight/shardcalls/main.go:36-45 | 0 rounds to 0 (the decrement gives -1, which the steps keep) |
| `ShardCalls.NextPowerOfTwoOfMinusOne` | demos/singleflight/shardcalls/main.go:36-45 | -1 also rounds to 0 |
| `ShardCalls.SmearBelowTop` | demos/singleflight/shardcalls/main.go:38-42 | a value with bits 1 to n-1 set (`2^n - 2`, n >= 2) smears to `2^n - 1` |
| `ShardCalls.SmearKeepsLowOnes` | demos/singleflight/shardcalls/main.go:38-42 | a run of n low ones (`2^n - 1`) is left unchanged by the five steps |
| `ShardCalls.NextPowerOfTwoOfMinInt` | demos/singleflight/shardcalls/main.go:36-45 | the smallest int64 decrements to the largest, is kept by the smear, and wraps back to -2^63, so `NewShardCalls` of it panics in `make` |
| `ShardCalls.NextPowerOfTwoOfMaxInt` | demos/singleflight/shardcalls/main.go:36-45 | the largest int64 rounds to -2^63, so `NewShardCalls` of it panics in `make` |
| `ShardCalls.NextPowerOfTwoExamples` | demos/singleflight/shardcalls/main.go:36-45 | 1, 4 and 8 round to themselves |
| `ShardCalls.NextPowerOfTwoOfFive` | demos/singleflight/shardcalls/main.go:36-45 | 5 rounds to 8 |
| `ShardCalls.NewShardCallsSized` | demos/singleflight/shardcalls/main.go:17-23 | for `1 <= n <= 2^32`: construction succeeds with `2^bitlen(n-1)` shards, between n and 2n-1, and mask = size - 1 |
| `ShardCalls.NewShardCallsZero` | demos/singleflight/shardcalls/main.go:17-23 | a count of 0 gives no shards and the mask 2^64 - 1 |
| `ShardCalls.NewShardCallsMinusOne` | demos/singleflight/shardcalls/main.go:17-23 | a count of -1 gives no shards and the mask 2^64 - 1 as well |
| `ShardCalls.NewShardCallsFour` | demos/singleflight/shardcalls/main.go:48 | the demo's `NewShardCalls(4)` has 4 shards and mask 3 |
| `ShardCalls.RouteInBounds` | demos/singleflight/shardcalls/main.go:25-34 | when the mask is the last index of a non-empty slice, every key is routed inside the slice |
| `ShardCalls.RouteIsModulo` | demos/singleflight/shardcalls/main.go:30-34 | with `2^k` shards and mask `2^k - 1`, the route is the hash modulo the shard count |
| `ShardCalls.NewShardCallsRoutes` | demos/singleflight/shardcalls/main.go:17-34 | for `1 <= n <= 2^32`, the coordinator routes every key to `FNV-1a(key) mod nextPowerOfTwo(n)` |
| `ShardCalls.RouteDependsOnlyOnHash` | demos/singleflight/shardcalls/main.go:30-34 | keys with equal hashes, in particular equal keys, go to the same shard |
| `ShardCalls.ZeroShardsAlwaysPanic` | demos/singleflight/shardcalls/main.go:17-28 | with a count of 0, `Do` panics for every key |
| `Fnv.Step` | demos/singleflight/shardcalls/main.go:31-33 | one FNV-1a step: xor the byte into the state, multiply by the 64-bit FNV prime modulo 2^64 |
| `Fnv.Absorb` | demos/singleflight/shardcalls/main.go:31-33 | `Write` folds `Step` over the bytes from left to right |
| `Fnv.Sum64` | demos/singleflight/shardcalls/main.go:31-33 | the hash of a key is the fold started at the FNV-1a 64 offset basis |
| `Fnv.AbsorbConcat` | demos/singleflight/shardcalls/main.go:31-33 | writing `a` then `b` to the hasher leaves the state that writing `a + b` does |
| `Fnv.Sum64Snoc` | demos/singleflight/shardcalls/main.go:31-33 | one more byte is one more xor-multiply step |
| `Coffee1.WaterFor` | demos/goroutine/coffee1/coffee1.go:45-47 | water for n cups is 180n ml |
| `Coffee1.HotWaterFor` | demos/goroutine/coffee1/coffee1.go:50-52 | hot water for n cups is 180n ml |
| `Coffee1.BeansFor` | demos/goroutine/coffee1/coffee1.go:55-57 | beans for n cups are 20n g |
| `Coffee1.GroundBeansFor` | demos/goroutine/coffee1/coffee1.go:60-62 | ground beans for n cups are 20n g |
| `Coffee1.Boil` | demos/goroutine/coffee1/coffee1.go:65-68 | boiling keeps the quantity |
| `Coffee1.Grind` | demos/goroutine/coffee1/coffee1.go:71-74 | grinding keeps the quantity |
| `Coffee1.Brew` | demos/goroutine/coffee1/coffee1.go:77-86 | for non-negative supplies, the cups are the largest number that both supplies cover at 180 ml and 20 g a cup; for every supply, the cups are the smaller of the two quotients truncated toward zero, `min(hotWater / 180, groundBeans / 20)`, so a negative supply gives at most 0 cups |
| `Coffee1.BrewNegativeSupply` | demos/goroutine/coffee1/coffee1.go:77-86 | a negative supply gives a negative truncated quotient: `brew(-200, 100)` is -1 |
| `Coffee1.BatchCount` | demos/goroutine/coffee1/coffee1.go:101-104 | a "subtract a batch while positive" loop runs n times and leaves the total in (-batch, 0] |
| `Coffee1.BatchCountIsCeiling` | demos/goroutine/coffee1/coffee1.go:101-104 | that n is the ceiling of total / batch |
| `Coffee1.BrewRounds` | demos/goroutine/coffee1/coffee1.go:118-122 | the number of rounds of a loop that takes four cups' worth (720 ml, 80 g) while both supplies have it; characterised by `BrewRoundsIsMin` |
| `Coffee1.BrewRoundsIsMin` | demos/goroutine/coffee1/coffee1.go:118-122 | the brewing loop runs `min(hotWater / 720, groundBeans / 80)` times |
| `Coffee1.FourCupsPerRound` | demos/goroutine/coffee1/coffee1.go:117-121 | brewing four cups' ingredients makes four cups |
| `Coffee1.TwentyCupsPlan` | demos/goroutine/coffee1/coffee1.go:90-94 | 20 cups need 3600 ml and 400 g: 6 boils, 20 grinds, 5 brewing rounds |
| `Coffee1.BoilAll` | demos/goroutine/coffee1/coffee1.go:100-104 | the boiling loop boils 600 ml per iteration, `BatchCount(water, 600)` times, and leaves water - boiled |
| `Coffee1.GrindAll` | demos/goroutine/coffee1/coffee1.go:108-112 | the grinding loop grinds 20 g per iteration, `BatchCount(beans, 20)` times, and leaves beans - ground |
| `Coffee1.BrewAll` | demos/goroutine/coffee1/coffee1.go:116-122 | the brewing loop adds 4 cups per round for `BrewRounds` rounds, uses 180 ml and 20 g per cup, and stops with less than 720 ml or less than 80 g left |
| `Coffee1.MakeCoffee` | demos/goroutine/coffee1/coffee1.go:88-125 | `main`'s final quantities for a positive amount: water and beans end in (-600, 0] and (-20, 0], and for 20 cups it brews 20 cups and uses up all hot water and ground beans |
| `Coffee2.Boil` | demos/goroutine/coffee2/coffee2.go:130-134 | keeps the quantity, and agrees with coffee1's boil |
| `Coffee2.Grind` | demos/goroutine/coffee2/coffee2.go:137-141 | keeps the quantity, and agrees with coffee1's grind |
| `Coffee2.Brew` | demos/goroutine/coffee2/coffee2.go:144-154 | agrees with coffee1's brew |
| `Coffee2.ContextIrrelevant` | demos/goroutine/coffee2/coffee2.go:130-154 | no step depends on the trace context |
| `Coffee2.RunMyProgram` | demos/goroutine/coffee2/coffee2.go:87-127 | the three loops end with no water, beans, hot water or ground beans left and 20 cups brewed |
| `Todo3.GetRole` | demos/restful/todo3/main.go:161-166 | the role is "senior" exactly for the user "senior", and "employee" for everyone else |
| `Todo3.ValidCredentials` | demos/restful/todo3/main.go:124 | an accepted login has the password "password" and a user whose role is their own name; with that password, exactly "employee" and "senior" are accepted |
| `Todo3.Toggled` | demos/restful/todo3/main.go:93-98 | toggling keeps the length and every text; it flips the done flag of entry i when i is in range, and of no other entry |
| `Todo3.MalformedIndexTogglesFirst` | demos/restful/todo3/main.go:94-97 | because Atoi's error is ignored, an index that does not parse, and whose leading digits do not overflow 64 bits, toggles the first todo |
| `Todo3.OverflowingIndexTogglesNothing` | demos/restful/todo3/main.go:94-97 | a malformed index whose leading digits overflow 64 bits reads as an int64 bound and toggles nothing |
| `Todo3.WrittenIndexSelects` | demos/restful/todo3/main.go:94-97 | the decimal text of an in-range index flips exactly that entry |
| `Todo3.ToggleTwice` | demos/restful/todo3/main.go:95-97 | toggling the same index twice restores the list |
| `Todo3.TodoApp.constructor` | demos/restful/todo3/main.go:26-27 | the program starts with no todos and nobody logged in |
| `Todo3.TodoApp.GetTodos` | demos/restful/todo3/main.go:57-64 | the page shows the todos, the user and their role, and `LoggedIn` iff someone is logged in |
| `Todo3.TodoApp.AddTodo` | demos/restful/todo3/main.go:73-78 | appends one not-done todo with the given text; nothing else changes |
| `Todo3.TodoApp.ToggleIndex` | demos/restful/todo3/main.go:93-98 | the list becomes `Toggled(list, Atoi(index))`; the logged-in user is unchanged |
| `Todo3.TodoApp.Logout` | demos/restful/todo3/main.go:105-109 | afterwards nobody is logged in; the todos are unchanged |
| `Todo3.TodoApp.Login` | demos/restful/todo3/main.go:120-138 | answers 401 exactly for invalid credentials, 500 for valid ones whose token fails, and 303 otherwise; only a 303 logs the user in; the todos are unchanged; only "employee", "senior" or nobody is ever logged in |
| `GoStrconv.Atoi` | demos/restful/todo3/main.go:94 | an optionally signed run of digits reads as its value, saturated to the int64 range; other text reads as 0, except that digits passing 2^64 - 1 before the first bad byte read as the int64 bound for the sign |
| `GoStrconv.ScanDigitsMeaning` | demos/restful/todo3/main.go:94 | the digit scan inside `Atoi` ends with a range error exactly when the leading digit run passes 2^64 - 1, and otherwise with the value of all-digit text or a syntax error |
| `GoStrconv.OverflowingRunSaturates` | demos/restful/todo3/main.go:94 | digits worth more than 2^64 - 1 followed by a non-digit read as the largest int64, or with '-' as the smallest |
| `GoStrconv.AtoiOverflowExample` | demos/restful/todo3/main.go:94 | "99999999999999999999x" reads as the largest int64 |
| `GoStrconv.AtoiNegativeOverflowExample` | demos/restful/todo3/main.go:94 | "-99999999999999999999x" reads as the smallest int64 |
| `GoStrconv.AtoiItoa` | demos/restful/todo3/main.go:94 | Atoi reads back every int that `%d` writes |
| `GoStrconv.AtoiMalformedExamples` | demos/restful/todo3/main.go:94 | "", "-", "1x" and "abc" read as 0 |
| `GoStrconv.Itoa` | demos/web/web10/web10.go:18 | `%d` writes digits, preceded by '-' exactly for negatives |
| `Package.Add` | demos/package/package.go:5-7 | the exact sum when it fits in 64 bits, and in any case congruent to it modulo 2^64 |
| `Package.Multiply` | demos/package/package.go:9-11 | the exact product when it fits in 64 bits, and in any case congruent to it modulo 2^64 |
| `Package.PowerOf` | demos/package/package.go:13-19 | 1 for a non-positive exponent; otherwise x^y when it fits, and in any case congruent to x^y modulo 2^64 |
| `Package.Power` | demos/package/package.go:13-19 | the loop computes `PowerOf(x, y)` (its invariant: after i rounds the result is x^i wrapped) |
| `Package.PowerStep` | demos/package/package.go:15-17 | one more round multiplies the result by x |
| `Package.PowerSquare` | demos/package/package.go:24 | `power(x, 2)` as `main` uses it equals `multiply(x, x)` |
| `Package.PowerAdd` | demos/package/package.go:13-19 | `power(x, a + b) == multiply(power(x, a), power(x, b))` for non-negative exponents |
| `Package.PowerExamples` | demos/package/package.go:13-19 | 5^2 = 25, and exponents 0 and -3 give 1 |
| `Package.PowerWrapsAround` | demos/package/package.go:13-19 | 2^64 wraps around to 0 |
| `Web10.Pad2` | demos/web/web10/web10.go:18 | `%02d` writes 0..99 as exactly two digits, with a leading zero below 10, and other values unpadded |
| `Web10.FormatAsDate` | demos/web/web10/web10.go:16-19 | the text is the year as `%d`, then '-', the month's two digits, '-', the day's two digits |
| `Web10.ParseFormatAsDate` | demos/web/web10/web10.go:16-19 | reading the text back yields the same year, month and day |
| `Web10.FormatAsDateInjective` | demos/web/web10/web10.go:16-19 | different dates are written differently |
| `Web10.FormatAsDateLength` | demos/web/web10/web10.go:16-19 | a four-digit year with a real month and day gives ten characters with '-' at positions 4 and 7 |
| `Web10.FormatAsDateExample` | demos/web/web10/web10.go:56 | the demo's 17 August 2019 is written "2019-08-17" |
| `Web10.FormatAsDateShortYear` | demos/web/web10/web10.go:18 | the year is not padded: year 5, January 2 is "5-01-02" |

## Left out

- `singleflight.Group.Do` (the deduplication of concurrent calls) and the goroutine driver in `main` (shardcalls `main.go:47-69`) are concurrent library code. A shard is an opaque slot, and `RouteDo` returns the selected shard index instead of calling into it.
- The conversion of a Go `string` key to `[]byte` is not modelled: keys are given as their bytes.
- `ShardCalls.NextPowerOfTwo` is characterised by lemmas for 0, -1, `1..2^32` and the largest int64 only. Above 2^32 the five shifts no longer fill every low bit. The result can be negative, both for counts below -1 and for positive counts such as the largest int64 (which rounds to -2^63), and then `NewShardCalls` reports the `make` panic. The model does not list every count that does that.
- `ShardCalls.NewShardCalls`: `make`'s implementation-defined maximum slice length (for example 2^48 bytes of sixteen-byte groups on linux/amd64, reached by a count of 2^45) and running out of memory are not modelled; the model treats every non-negative rounded count as allocatable.
- `time.Sleep`, `fmt.Println` and the `String()` methods of the coffee types (coffee1.go:24-42, coffee2.go:28-46) print or wait and do not affect the values.
- The coffee quantities are unbounded integers, not 64-bit `int`s. The values the programs reach are far below 2^63, so no wrap-around is modelled.
- `Coffee1.MakeCoffee` takes the number of cups as a parameter, where the program fixes it to 20. Its 20-cup result is stated separately.
- coffee2's `main` (coffee2.go:68-85) creates a trace file and starts and stops tracing, and its steps open trace regions. None of this affects the values. The trace context is modelled as a label.
- Todo app: gin routing, form parsing, templates, redirects, cookies, Swagger, and JWT signing and verification (`createToken`, `authenticateMiddleware`) are not modelled. The token's success or failure is a parameter of `Login`. `AddTodo` and `ToggleIndex` are modelled without the middleware that guards them.
- Todo app: the handlers share global variables without synchronisation. The model runs each handler as one atomic step, so interleaved requests are not modelled.
- The package demo's `main` calls `getPower`, which the file does not define. `main` and its `Printf` are not modelled.
- web10: `time.Time` and the calendar arithmetic of `Date()` are not modelled. `FormatAsDate` receives the year, month and day. The `login` handler, the `goo` framework and the templates are not modelled either.
- `GoStrconv.Atoi` models only the value `strconv.Atoi` returns; the error itself (syntax or range) is dropped, as the program drops it. Go's fast path for text shorter than 19 bytes is not modelled separately, since it returns the same values.
