/**
 * The Wa-Tor world as a value: the grid of a `Toroid`, its table of fish and
 * its set of live creatures, and one function per operation of wator/wator.py
 * giving the state that operation leaves behind.  The class in wator.dfy is
 * proved against these functions; the lemmas in world_properties.dfy are
 * about them.
 *
 * A fish is referred to by its identity (an `Id`), as the source refers to a
 * Python object.  The table `fish` holds every fish ever created, dead or alive:
 * a fish that died is only gone from the grid and from `creatures`, and it can
 * still be updated, as the source's snapshot loop does.
 */
module World {
  import opened Wrappers
  import opened Topology

  type Id = nat

  datatype Species = Prey | Predator

  /**
   * The values the source reads from its `configuration` module: maturity and
   * energy yield per species (looked up with a default) and the initial energy
   * of a predator.
   */
  datatype Config = Config(maturity: map<Species, int>, energy: map<Species, int>, initialEnergy: int)

  /** `configuration.maturity.get(name, 2)` */
  function Maturity(cfg: Config, species: Species): int {
    if species in cfg.maturity then cfg.maturity[species] else 2
  }

  /** `configuration.energy.get(name, 1)` */
  function Yield(cfg: Config, species: Species): int {
    if species in cfg.energy then cfg.energy[species] else 1
  }

  /** The fields of a `Fish` object; a prey has no energy in the source and carries 0 here. */
  datatype Fish = Fish(species: Species, position: Position, lastPosition: Option<Position>, age: nat, energy: int)

  /**
   * `cells[y][x]` is `Toroid.map[y][x]`; `fish` is every fish created so far;
   * `creatures` is `Toroid.creatures`; `nextId` is the identity the next fish gets.
   */
  datatype State = State(width: nat, height: nat, cells: seq<seq<Option<Id>>>,
                         fish: map<Id, Fish>, creatures: set<Id>, nextId: nat)

  /** A state, or `CollisionError` raised with the state as it was when raised. */
  datatype Outcome = Ok(state: State) | CollisionError(state: State)

  predicate InGrid(s: State, p: Position) {
    InBounds(s.width, s.height, p)
  }

  predicate Shaped(s: State) {
    |s.cells| == s.height && forall y :: 0 <= y < s.height ==> |s.cells[y]| == s.width
  }

  /** `Toroid.__getitem__` */
  function Cell(s: State, p: Position): Option<Id>
    requires Shaped(s) && InGrid(s, p)
  {
    s.cells[p.y][p.x]
  }

  predicate Placed(s: State, f: Fish) {
    InGrid(s, f.position) && (f.lastPosition.Some? ==> InGrid(s, f.lastPosition.value))
  }

  /**
   * What every reachable state satisfies: the grid has its dimensions, cells
   * and creatures refer to known fish, and every fish's positions lie in the grid.
   */
  ghost predicate Valid(s: State) {
    && Shaped(s)
    && (forall p {:trigger Cell(s, p)} :: InGrid(s, p) && Cell(s, p).Some? ==> Cell(s, p).value in s.fish)
    && s.creatures <= s.fish.Keys
    && (forall id :: id in s.fish ==> id < s.nextId && Placed(s, s.fish[id]))
  }

  /**
   * The population invariant of a Wa-Tor world: every live creature sits in its
   * own cell, and every occupied cell holds a live creature whose position is
   * that cell.  It is not preserved by a whole tick (see world_properties.dfy).
   */
  ghost predicate Consistent(s: State)
    requires Valid(s)
  {
    && (forall id :: id in s.creatures ==> Cell(s, s.fish[id].position) == Some(id))
    && (forall p {:trigger Cell(s, p)} :: InGrid(s, p) && Cell(s, p).Some? ==>
          Cell(s, p).value in s.creatures && s.fish[Cell(s, p).value].position == p)
  }

  /** `r` is a later state of the same world as `s`. */
  ghost predicate Extends(s: State, r: State) {
    && Valid(r)
    && r.width == s.width && r.height == s.height
    && s.fish.Keys <= r.fish.Keys && s.nextId <= r.nextId
  }

  /** A fish as construction leaves it. */
  predicate Newborn(f: Fish) {
    f.age == 0 && f.lastPosition.None?
  }

  /** Going from `s` to `r` changed no fish's record but that of `id`, and only created newborns. */
  ghost predicate OnlyTouches(s: State, r: State, id: Id) {
    && (forall j :: j in s.fish && j != id ==> j in r.fish && r.fish[j] == s.fish[j])
    && (forall j :: j in r.fish && j !in s.fish ==> Newborn(r.fish[j]))
  }

  /** `Toroid(width, height)` */
  function Empty(width: nat, height: nat): (r: State)
    ensures Valid(r) && Consistent(r) && r.width == width && r.height == height
    ensures r.fish == map[] && r.creatures == {}
    ensures forall p {:trigger Cell(r, p)} :: InGrid(r, p) ==> Cell(r, p) == None
  {
    State(width, height, seq(height, _ => seq(width, _ => None)), map[], {}, 0)
  }

  /** `Toroid.__setitem__` */
  function SetCell(s: State, p: Position, v: Option<Id>): (r: State)
    requires Shaped(s) && InGrid(s, p)
    ensures Shaped(r) && r.width == s.width && r.height == s.height
    ensures r.fish == s.fish && r.creatures == s.creatures && r.nextId == s.nextId
    ensures forall q {:trigger Cell(r, q)} :: InGrid(s, q) ==> Cell(r, q) == if q == p then v else Cell(s, q)
    ensures Valid(s) && (v.Some? ==> v.value in s.fish) ==> Valid(r)
  {
    s.(cells := s.cells[p.y := s.cells[p.y][p.x := v]])
  }

  /** `Toroid.open` */
  predicate Open(s: State, p: Position)
    requires Shaped(s) && InGrid(s, p)
  {
    Cell(s, p).None?
  }

  /** `Toroid.contains`: the cell holds a fish of the given species. */
  predicate Contains(s: State, p: Position, species: Species)
    requires Valid(s) && InGrid(s, p)
  {
    Cell(s, p).Some? && s.fish[Cell(s, p).value].species == species
  }

  /** `Toroid.add` */
  function Add(s: State, id: Id): (r: State)
    requires Valid(s) && id in s.fish
    ensures Valid(r) && r.width == s.width && r.height == s.height && r.cells == s.cells
    ensures r.fish == s.fish && r.nextId == s.nextId && r.creatures == s.creatures + {id}
  {
    var r := s.(creatures := s.creatures + {id});
    assert forall q {:trigger Cell(r, q)} :: InGrid(r, q) ==> Cell(r, q) == Cell(s, q);
    r
  }

  /** `Toroid.remove`: a no-op when `id` is not a member. */
  function Remove(s: State, id: Id): (r: State)
    requires Valid(s)
    ensures Valid(r) && r.width == s.width && r.height == s.height && r.cells == s.cells
    ensures r.fish == s.fish && r.nextId == s.nextId && r.creatures == s.creatures - {id}
  {
    var r := s.(creatures := s.creatures - {id});
    assert forall q {:trigger Cell(r, q)} :: InGrid(r, q) ==> Cell(r, q) == Cell(s, q);
    r
  }

  /** Assigning the fields of the fish `id`. */
  function SetFish(s: State, id: Id, f: Fish): (r: State)
    requires Valid(s) && id in s.fish && Placed(s, f)
    ensures Valid(r) && r.width == s.width && r.height == s.height && r.cells == s.cells
    ensures r.fish == s.fish[id := f] && r.creatures == s.creatures && r.nextId == s.nextId
    ensures OnlyTouches(s, r, id)
  {
    var r := s.(fish := s.fish[id := f]);
    assert forall q {:trigger Cell(r, q)} :: InGrid(r, q) ==> Cell(r, q) == Cell(s, q);
    r
  }

  /**
   * `Toroid.update`: if the fish's new position is open, it is stored there and
   * its last position is cleared; otherwise `CollisionError` with the state unchanged.
   */
  function Update(s: State, id: Id): (r: Outcome)
    requires Valid(s) && id in s.fish && s.fish[id].lastPosition.Some?
    ensures Valid(r.state) && r.state.width == s.width && r.state.height == s.height
    ensures r.state.fish == s.fish && r.state.creatures == s.creatures && r.state.nextId == s.nextId
    ensures r.Ok? <==> Open(s, s.fish[id].position)
    ensures r.CollisionError? ==> r.state == s
    ensures r.Ok? ==> forall q {:trigger Cell(r.state, q)} :: InGrid(s, q) ==>
      Cell(r.state, q) == if q == s.fish[id].lastPosition.value then None
                          else if q == s.fish[id].position then Some(id)
                          else Cell(s, q)
  {
    var f := s.fish[id];
    if Open(s, f.position) then Ok(SetCell(SetCell(s, f.position, Some(id)), f.lastPosition.value, None))
    else CollisionError(s)
  }

  /** `Fish.__init__` (and `Predator.__init__`): a fresh fish stored at `p`, overwriting the cell. */
  function NewFish(s: State, cfg: Config, species: Species, p: Position): (r: State)
    requires Valid(s) && InGrid(s, p)
    ensures Extends(s, r) && r.nextId == s.nextId + 1 && s.nextId !in s.fish
    ensures r.fish == s.fish[s.nextId := Fish(species, p, None, 0,
                                              if species == Predator then cfg.initialEnergy else 0)]
    ensures r.creatures == s.creatures + {s.nextId}
    ensures forall q {:trigger Cell(r, q)} :: InGrid(s, q) ==> Cell(r, q) == if q == p then Some(s.nextId) else Cell(s, q)
  {
    var id := s.nextId;
    var s1 := Register(s, Fish(species, p, None, 0, if species == Predator then cfg.initialEnergy else 0));
    Add(SetCell(s1, p, Some(id)), id)
  }

  /** Entering a new fish in the table under the next fresh identity. */
  function Register(s: State, f: Fish): (r: State)
    requires Valid(s) && Placed(s, f)
    ensures Valid(r) && r.width == s.width && r.height == s.height && r.cells == s.cells
    ensures s.nextId !in s.fish && r.fish == s.fish[s.nextId := f] && r.nextId == s.nextId + 1
    ensures r.creatures == s.creatures
  {
    var r := s.(fish := s.fish[s.nextId := f], nextId := s.nextId + 1);
    assert forall q {:trigger Cell(r, q)} :: InGrid(r, q) ==> Cell(r, q) == Cell(s, q);
    r
  }

  /** `Fish.grow` */
  function Grow(s: State, id: Id): (r: State)
    requires Valid(s) && id in s.fish
    ensures Extends(s, r) && r.cells == s.cells && r.creatures == s.creatures && r.nextId == s.nextId
    ensures r.fish == s.fish[id := s.fish[id].(age := s.fish[id].age + 1)]
  {
    SetFish(s, id, s.fish[id].(age := s.fish[id].age + 1))
  }

  /** `Fish.die`: the cell at the fish's recorded position is cleared and the fish leaves `creatures`. */
  function Die(s: State, id: Id): (r: State)
    requires Valid(s) && id in s.fish
    ensures Extends(s, r) && r.fish == s.fish && r.nextId == s.nextId
    ensures r.creatures == s.creatures - {id}
    ensures forall q {:trigger Cell(r, q)} :: InGrid(s, q) ==> Cell(r, q) == if q == s.fish[id].position then None else Cell(s, q)
  {
    Remove(SetCell(s, s.fish[id].position, None), id)
  }

  /** Which cells a comprehension keeps. */
  datatype Criterion = Vacant | HoldsPrey

  predicate Meets(s: State, p: Position, c: Criterion)
    requires Valid(s) && InGrid(s, p)
  {
    match c
    case Vacant => Open(s, p)
    case HoldsPrey => Contains(s, p, Prey)
  }

  /** `[p for p in ps if ...]`, in order and with repetitions. */
  function Candidates(s: State, ps: seq<Position>, c: Criterion): (r: seq<Position>)
    requires Valid(s) && forall q :: q in ps ==> InGrid(s, q)
    ensures forall q :: q in r <==> q in ps && Meets(s, q, c)
    ensures |r| <= |ps|
    decreases |ps|
  {
    if ps == [] then []
    else
      var last := ps[|ps| - 1];
      Candidates(s, ps[..|ps| - 1], c) + (if Meets(s, last, c) then [last] else [])
  }

  /** The four neighbours of a fish's position, as `adjacent_spaces` lists them. */
  function Neighbours(s: State, p: Position): (r: seq<Position>)
    requires InGrid(s, p)
    ensures |r| == 4 && forall q :: q in r ==> InGrid(s, q)
  {
    Spaces(AdjacentSpaces(s.width, s.height, p))
  }

  /**
   * `random.choice(possible or [None])`, with the random draw supplied as
   * `pick`: `None` exactly when there is no candidate, otherwise a candidate.
   */
  function Choose(cands: seq<Position>, pick: nat): (r: Option<Position>)
    ensures r.None? <==> cands == []
    ensures r.Some? ==> r.value in cands
  {
    if cands == [] then None else Some(cands[pick % |cands|])
  }

  /** `Fish.pick_direction` */
  function PickDirection(s: State, id: Id, pick: nat): (r: Option<Position>)
    requires Valid(s) && id in s.fish
    ensures r.None? <==> forall q :: q in Neighbours(s, s.fish[id].position) ==> !Open(s, q)
    ensures r.Some? ==> r.value in Neighbours(s, s.fish[id].position) && Open(s, r.value)
  {
    Choose(Candidates(s, Neighbours(s, s.fish[id].position), Vacant), pick)
  }

  /** `Predator.pick_meal` */
  function PickMeal(s: State, id: Id, pick: nat): (r: Option<Position>)
    requires Valid(s) && id in s.fish
    ensures r.None? <==> forall q :: q in Neighbours(s, s.fish[id].position) ==> !Contains(s, q, Prey)
    ensures r.Some? ==> r.value in Neighbours(s, s.fish[id].position) && Contains(s, r.value, Prey)
  {
    Choose(Candidates(s, Neighbours(s, s.fish[id].position), HoldsPrey), pick)
  }

  /**
   * `Fish.move`: the fish's record takes the new position (and remembers the
   * old one) before `Toroid.update` runs, so it is changed even on a collision.
   */
  function Move(s: State, id: Id, target: Position): (r: Outcome)
    requires Valid(s) && id in s.fish && InGrid(s, target)
    ensures Extends(s, r.state) && r.state.creatures == s.creatures && r.state.nextId == s.nextId
    ensures OnlyTouches(s, r.state, id)
    ensures r.state.fish == s.fish[id := s.fish[id].(position := target,
                                                     lastPosition := Some(s.fish[id].position))]
    ensures r.Ok? <==> Open(s, target)
    ensures r.CollisionError? ==> r.state.cells == s.cells
    ensures r.Ok? ==> forall q {:trigger Cell(r.state, q)} :: InGrid(s, q) ==>
      Cell(r.state, q) == if q == s.fish[id].position then None
                          else if q == target then Some(id)
                          else Cell(s, q)
  {
    var f := s.fish[id];
    Update(SetFish(s, id, f.(position := target, lastPosition := Some(f.position))), id)
  }

  /**
   * `Fish.spawn`: nothing below maturity; otherwise the age is reset and, when
   * there is a last position, a fish of the same species is created there.
   */
  function Spawn(s: State, cfg: Config, id: Id): (r: State)
    requires Valid(s) && id in s.fish
    ensures Extends(s, r) && OnlyTouches(s, r, id)
    ensures s.fish[id].age < Maturity(cfg, s.fish[id].species) ==> r == s
    ensures s.fish[id].age >= Maturity(cfg, s.fish[id].species) ==>
      r.fish[id] == s.fish[id].(age := 0) &&
      (s.fish[id].lastPosition.None? ==> r == s.(fish := s.fish[id := s.fish[id].(age := 0)])) &&
      (s.fish[id].lastPosition.Some? ==>
         var p := s.fish[id].lastPosition.value;
         var born := Fish(s.fish[id].species, p, None, 0, if s.fish[id].species == Predator then cfg.initialEnergy else 0);
         r.nextId == s.nextId + 1 && s.nextId !in s.fish &&
         r.fish == s.fish[s.nextId := born][id := s.fish[id].(age := 0)] &&
         r.creatures == s.creatures + {s.nextId} &&
         forall q {:trigger Cell(r, q)} :: InGrid(s, q) ==> Cell(r, q) == if q == p then Some(s.nextId) else Cell(s, q))
  {
    var f := s.fish[id];
    if f.age >= Maturity(cfg, f.species) then
      var s1 := if f.lastPosition.Some? then NewFish(s, cfg, f.species, f.lastPosition.value) else s;
      SetFish(s1, id, s1.fish[id].(age := 0))
    else s
  }

  /** `Fish.update`, which is also what a prey does each tick. */
  function FishUpdate(s: State, cfg: Config, id: Id, pick: nat): (r: Outcome)
    requires Valid(s) && id in s.fish
    ensures Extends(s, r.state) && OnlyTouches(s, r.state, id)
    ensures r.Ok?
    ensures var f := s.fish[id];
      var dir := PickDirection(s, id, pick);
      var g := r.state.fish[id];
      && g.species == f.species && g.energy == f.energy
      && g.position == (if dir.Some? then dir.value else f.position)
      && g.lastPosition == (if dir.Some? then Some(f.position) else f.lastPosition)
      && g.age == (if f.age + 1 >= Maturity(cfg, f.species) then 0 else f.age + 1)
  {
    var choice := PickDirection(s, id, pick);
    if choice.None? then Ok(Spawn(Grow(s, id), cfg, id))
    else
      var moved := Move(s, id, choice.value);
      if moved.CollisionError? then moved
      else Ok(Spawn(Grow(moved.state, id), cfg, id))
  }

  /** `Prey.eat`: the prey dies and the result is its species' energy yield. */
  function Eat(s: State, cfg: Config, id: Id): (r: (State, int))
    requires Valid(s) && id in s.fish
    ensures Extends(s, r.0) && r.0.fish == s.fish && r.0.nextId == s.nextId
    ensures r.0.creatures == s.creatures - {id} && Open(r.0, s.fish[id].position)
    ensures forall q {:trigger Cell(r.0, q)} :: InGrid(s, q) ==>
      Cell(r.0, q) == if q == s.fish[id].position then None else Cell(s, q)
    ensures r.1 == Yield(cfg, s.fish[id].species)
  {
    (Die(s, id), Yield(cfg, s.fish[id].species))
  }

  /** `Predator.grow`: older by one, one energy less, and dead once energy is not positive. */
  function PredatorGrow(s: State, id: Id): (r: State)
    requires Valid(s) && id in s.fish
    ensures Extends(s, r) && r.nextId == s.nextId && OnlyTouches(s, r, id)
    ensures r.fish == s.fish[id := s.fish[id].(age := s.fish[id].age + 1, energy := s.fish[id].energy - 1)]
    ensures s.fish[id].energy - 1 > 0 ==> r.cells == s.cells && r.creatures == s.creatures
    ensures s.fish[id].energy - 1 <= 0 ==>
      r.creatures == s.creatures - {id} &&
      forall q {:trigger Cell(r, q)} :: InGrid(s, q) ==> Cell(r, q) == if q == s.fish[id].position then None else Cell(s, q)
  {
    var f := s.fish[id];
    var s1 := SetFish(s, id, f.(age := f.age + 1, energy := f.energy - 1));
    if f.energy - 1 <= 0 then Die(s1, id) else s1
  }

  /**
   * `Predator.chomp`: the prey at `c` is eaten, its yield is added to the
   * predator's energy, and the predator moves onto `c`.
   */
  function Chomp(s: State, cfg: Config, id: Id, c: Position): (r: Outcome)
    requires Valid(s) && id in s.fish && s.fish[id].species == Predator
    requires InGrid(s, c) && Contains(s, c, Prey)
    ensures Extends(s, r.state) && r.state.nextId == s.nextId && OnlyTouches(s, r.state, id)
    ensures r.state.fish == s.fish[id := s.fish[id].(position := c, lastPosition := Some(s.fish[id].position),
                                                     energy := s.fish[id].energy + Yield(cfg, Prey))]
  {
    Move(Feed(s, cfg, id, c), id, c)
  }

  /** The first two steps of `Predator.chomp`: the prey at `c` is eaten and its yield added. */
  function Feed(s: State, cfg: Config, id: Id, c: Position): (r: State)
    requires Valid(s) && id in s.fish && s.fish[id].species == Predator
    requires InGrid(s, c) && Contains(s, c, Prey)
    ensures Extends(s, r) && r.nextId == s.nextId && OnlyTouches(s, r, id)
    ensures r.fish == s.fish[id := s.fish[id].(energy := s.fish[id].energy + Yield(cfg, Prey))]
    ensures r.creatures == s.creatures - {Cell(s, c).value}
    ensures forall q {:trigger Cell(r, q)} :: InGrid(s, q) ==>
      Cell(r, q) == if q == s.fish[Cell(s, c).value].position then None else Cell(s, q)
  {
    var meal := Cell(s, c).value;
    var eaten := Eat(s, cfg, meal);
    var s1 := eaten.0;
    assert s1.fish == s.fish && eaten.1 == Yield(cfg, Prey);
    SetFish(s1, id, s.fish[id].(energy := s.fish[id].energy + eaten.1))
  }

  /**
   * `Predator.update`: eat a neighbouring prey if there is one, otherwise move to
   * an open neighbour if there is one; then `spawn`, which for a predator does
   * nothing, and `grow`.
   */
  function PredatorUpdate(s: State, cfg: Config, id: Id, pick: nat): (r: Outcome)
    requires Valid(s) && id in s.fish && s.fish[id].species == Predator
    ensures Extends(s, r.state) && OnlyTouches(s, r.state, id)
    ensures r.state.nextId == s.nextId && r.state.fish.Keys == s.fish.Keys
    ensures r.Ok? ==> r.state.fish[id].age == s.fish[id].age + 1
    ensures r.Ok? ==>
      var meal := PickMeal(s, id, pick);
      var dir := PickDirection(s, id, pick);
      && r.state.fish[id].energy == s.fish[id].energy - 1 + (if meal.Some? then Yield(cfg, Prey) else 0)
      && r.state.fish[id].position ==
           if meal.Some? then meal.value else if dir.Some? then dir.value else s.fish[id].position
  {
    var moved := Hunt(s, cfg, id, pick);
    if moved.CollisionError? then moved
    else Ok(PredatorGrow(moved.state, id))
  }

  /** The first part of `Predator.update`: chomp a neighbouring prey, or else move, or else stay. */
  function Hunt(s: State, cfg: Config, id: Id, pick: nat): (r: Outcome)
    requires Valid(s) && id in s.fish && s.fish[id].species == Predator
    ensures Extends(s, r.state) && OnlyTouches(s, r.state, id) && r.state.nextId == s.nextId
    ensures id in r.state.fish && r.state.fish[id].species == Predator && r.state.fish[id].age == s.fish[id].age
    ensures var meal := PickMeal(s, id, pick);
      var dir := PickDirection(s, id, pick);
      && r.state.fish[id].energy == s.fish[id].energy + (if meal.Some? then Yield(cfg, Prey) else 0)
      && r.state.fish[id].position ==
           if meal.Some? then meal.value else if dir.Some? then dir.value else s.fish[id].position
  {
    var meal := PickMeal(s, id, pick);
    if meal.Some? then Chomp(s, cfg, id, meal.value)
    else
      var dir := PickDirection(s, id, pick);
      if dir.Some? then Move(s, id, dir.value) else Ok(s)
  }

  /** `critter.update()`, dispatched on the species. */
  function CritterUpdate(s: State, cfg: Config, id: Id, pick: nat): (r: Outcome)
    requires Valid(s) && id in s.fish
    ensures Extends(s, r.state) && OnlyTouches(s, r.state, id)
  {
    if s.fish[id].species == Predator then PredatorUpdate(s, cfg, id, pick)
    else FishUpdate(s, cfg, id, pick)
  }

  /**
   * The loop of `Toroid.advance` over a snapshot `order`, one random draw per
   * entry; a `CollisionError` ends the tick where it is raised.
   */
  function Tick(s: State, cfg: Config, order: seq<Id>, picks: seq<nat>): (r: Outcome)
    requires Valid(s) && |picks| == |order| && forall id :: id in order ==> id in s.fish
    ensures Extends(s, r.state)
    decreases |order|
  {
    if order == [] then Ok(s)
    else
      var step := CritterUpdate(s, cfg, order[0], picks[0]);
      if step.CollisionError? then step
      else Tick(step.state, cfg, order[1..], picks[1..])
  }
}
