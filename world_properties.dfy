/**
 * Properties of the Wa-Tor operations modelled in world.dfy.
 *
 * The population invariant `Consistent` is kept by each single operation on a
 * live creature (construction on an open cell, death, a move onto an open cell,
 * a chomp, a predator's whole update, a prey's update when it moves), but not by
 * a whole tick: a creature that died earlier in the tick is still in the
 * snapshot and still acts (EatenPreyBlanksPredator), and a prey that cannot
 * move spawns into its old cell whatever is there now (StuckPreyOverwrites).
 */
module WorldProperties {
  import opened Wrappers
  import opened Topology
  import opened World

  /** Every candidate is the outcome of some random draw. */
  lemma ChooseCovers(cands: seq<Position>, q: Position)
    requires q in cands
    ensures exists pick: nat :: Choose(cands, pick) == Some(q)
  {
    var i :| 0 <= i < |cands| && cands[i] == q;
    assert Choose(cands, i) == Some(q);
  }

  /** Every open neighbour can be the direction `pick_direction` returns. */
  lemma PickDirectionCovers(s: State, id: Id, q: Position)
    requires Valid(s) && id in s.fish
    requires q in Neighbours(s, s.fish[id].position) && Open(s, q)
    ensures exists pick: nat :: PickDirection(s, id, pick) == Some(q)
  {
    var cands := Candidates(s, Neighbours(s, s.fish[id].position), Vacant);
    ChooseCovers(cands, q);
    var pick: nat :| Choose(cands, pick) == Some(q);
    assert PickDirection(s, id, pick) == Some(q);
  }

  /** Every neighbouring prey can be the meal `pick_meal` returns. */
  lemma PickMealCovers(s: State, id: Id, q: Position)
    requires Valid(s) && id in s.fish
    requires q in Neighbours(s, s.fish[id].position) && Contains(s, q, Prey)
    ensures exists pick: nat :: PickMeal(s, id, pick) == Some(q)
  {
    var cands := Candidates(s, Neighbours(s, s.fish[id].position), HoldsPrey);
    ChooseCovers(cands, q);
    var pick: nat :| Choose(cands, pick) == Some(q);
    assert PickMeal(s, id, pick) == Some(q);
  }

  /** Changing a fish's record without changing its position keeps the world consistent. */
  lemma SetFishKeepsConsistent(s: State, id: Id, f: Fish)
    requires Valid(s) && Consistent(s) && id in s.fish && Placed(s, f) && f.position == s.fish[id].position
    ensures Consistent(SetFish(s, id, f))
  {
    var r := SetFish(s, id, f);
    forall q | InGrid(r, q) && Cell(r, q).Some?
      ensures Cell(r, q).value in r.creatures && r.fish[Cell(r, q).value].position == q
    {
      assert Cell(r, q) == Cell(s, q);
    }
    forall j | j in r.creatures
      ensures Cell(r, r.fish[j].position) == Some(j)
    {
      assert Cell(s, s.fish[j].position) == Some(j);
    }
  }

  /** A fish constructed on an open cell is stored there, is live, and keeps the world consistent. */
  lemma NewFishKeepsConsistent(s: State, cfg: Config, species: Species, p: Position)
    requires Valid(s) && Consistent(s) && InGrid(s, p) && Open(s, p)
    ensures var r := NewFish(s, cfg, species, p);
      && Consistent(r)
      && s.nextId in r.creatures && Cell(r, p) == Some(s.nextId)
      && r.fish[s.nextId].species == species && r.fish[s.nextId].position == p
      && Newborn(r.fish[s.nextId])
  {
    var r := NewFish(s, cfg, species, p);
    forall q | InGrid(r, q) && Cell(r, q).Some?
      ensures Cell(r, q).value in r.creatures && r.fish[Cell(r, q).value].position == q
    {
      if q != p {
        assert Cell(r, q) == Cell(s, q);
      }
    }
  }

  /** `die` on a live creature clears its cell, removes it, and keeps the world consistent. */
  lemma DieKeepsConsistent(s: State, id: Id)
    requires Valid(s) && Consistent(s) && id in s.creatures
    ensures var r := Die(s, id);
      Consistent(r) && id !in r.creatures && Open(r, s.fish[id].position)
  {
    var r := Die(s, id);
    var p := s.fish[id].position;
    forall j | j in r.creatures
      ensures Cell(r, r.fish[j].position) == Some(j)
    {
      assert Cell(s, s.fish[j].position) == Some(j);
    }
    forall q | InGrid(r, q) && Cell(r, q).Some?
      ensures Cell(r, q).value in r.creatures && r.fish[Cell(r, q).value].position == q
    {
      assert Cell(r, q) == Cell(s, q);
    }
  }

  /** A live creature moving onto an open cell never collides, and the world stays consistent. */
  lemma MoveKeepsConsistent(s: State, id: Id, target: Position)
    requires Valid(s) && Consistent(s) && id in s.creatures
    requires InGrid(s, target) && Open(s, target)
    ensures var r := Move(s, id, target);
      && r.Ok? && Consistent(r.state)
      && Cell(r.state, target) == Some(id) && Open(r.state, s.fish[id].position)
  {
    var r := Move(s, id, target).state;
    var p := s.fish[id].position;
    assert p != target;
    forall j | j in r.creatures
      ensures Cell(r, r.fish[j].position) == Some(j)
    {
      if j != id {
        assert Cell(s, s.fish[j].position) == Some(j);
      }
    }
    forall q | InGrid(r, q) && Cell(r, q).Some?
      ensures Cell(r, q).value in r.creatures && r.fish[Cell(r, q).value].position == q
    {
      if q != target {
        assert Cell(r, q) == Cell(s, q);
      }
    }
  }

  /**
   * `chomp` by a live predator: the prey leaves the grid and `creatures`, the
   * predator gains exactly the prey's yield, stands on the prey's cell, and has
   * left its own; the world stays consistent.
   */
  lemma ChompKeepsConsistent(s: State, cfg: Config, id: Id, c: Position)
    requires Valid(s) && Consistent(s) && id in s.creatures && s.fish[id].species == Predator
    requires InGrid(s, c) && Contains(s, c, Prey)
    ensures var r := Chomp(s, cfg, id, c);
      && r.Ok? && Consistent(r.state)
      && Cell(s, c).value !in r.state.creatures
      && Cell(r.state, c) == Some(id) && Open(r.state, s.fish[id].position)
      && r.state.fish[id].energy == s.fish[id].energy + Yield(cfg, Prey)
  {
    FeedKeepsConsistent(s, cfg, id, c);
    MoveKeepsConsistent(Feed(s, cfg, id, c), id, c);
  }

  /** The state `Predator.chomp` moves in: the prey is dead and the predator has its yield. */
  lemma FeedKeepsConsistent(s: State, cfg: Config, id: Id, c: Position)
    requires Valid(s) && Consistent(s) && id in s.creatures && s.fish[id].species == Predator
    requires InGrid(s, c) && Contains(s, c, Prey)
    ensures var r := Feed(s, cfg, id, c);
      && Consistent(r) && id in r.creatures && Open(r, c) && Cell(s, c).value !in r.creatures
  {
    var meal := Cell(s, c).value;
    DieKeepsConsistent(s, meal);
    var s1 := Die(s, meal);
    SetFishKeepsConsistent(s1, id, s.fish[id].(energy := s.fish[id].energy + Yield(cfg, Prey)));
  }

  /**
   * `Predator.grow` on a live predator: when its energy drops to zero or below it
   * is gone from `creatures` and its cell is open; otherwise it stays; either way
   * the world stays consistent.
   */
  lemma PredatorGrowKeepsConsistent(s: State, id: Id)
    requires Valid(s) && Consistent(s) && id in s.creatures
    ensures var r := PredatorGrow(s, id);
      && Consistent(r)
      && (s.fish[id].energy <= 1 ==> id !in r.creatures && Open(r, s.fish[id].position))
      && (s.fish[id].energy > 1 ==> id in r.creatures)
  {
    var f := s.fish[id];
    var s1 := SetFish(s, id, f.(age := f.age + 1, energy := f.energy - 1));
    SetFishKeepsConsistent(s, id, f.(age := f.age + 1, energy := f.energy - 1));
    if f.energy - 1 <= 0 {
      DieKeepsConsistent(s1, id);
    }
  }

  /** `spawn` keeps the world consistent when it has no last position or that cell is open. */
  lemma SpawnKeepsConsistent(s: State, cfg: Config, id: Id)
    requires Valid(s) && Consistent(s) && id in s.creatures
    requires s.fish[id].lastPosition.Some? ==> Open(s, s.fish[id].lastPosition.value)
    ensures Consistent(Spawn(s, cfg, id))
  {
    var f := s.fish[id];
    if f.age >= Maturity(cfg, f.species) {
      var s1 := if f.lastPosition.Some? then NewFish(s, cfg, f.species, f.lastPosition.value) else s;
      if f.lastPosition.Some? {
        NewFishKeepsConsistent(s, cfg, f.species, f.lastPosition.value);
      }
      SetFishKeepsConsistent(s1, id, s1.fish[id].(age := 0));
    }
  }

  /** `Fish.grow` on a consistent world keeps it consistent. */
  lemma GrowKeepsConsistent(s: State, id: Id)
    requires Valid(s) && Consistent(s) && id in s.fish
    ensures Consistent(Grow(s, id))
  {
    SetFishKeepsConsistent(s, id, s.fish[id].(age := s.fish[id].age + 1));
  }

  /**
   * A live predator's whole update in a consistent world never collides, keeps
   * the world consistent, creates no fish, and makes the predator exactly one
   * tick older: `Predator.spawn` never fires and never resets the age.
   */
  lemma PredatorUpdateKeepsConsistent(s: State, cfg: Config, id: Id, pick: nat)
    requires Valid(s) && Consistent(s) && id in s.creatures && s.fish[id].species == Predator
    ensures var r := PredatorUpdate(s, cfg, id, pick);
      && r.Ok? && Consistent(r.state)
      && r.state.nextId == s.nextId
      && r.state.fish[id].age == s.fish[id].age + 1
  {
    var meal := PickMeal(s, id, pick);
    if meal.Some? {
      ChompKeepsConsistent(s, cfg, id, meal.value);
    } else {
      var dir := PickDirection(s, id, pick);
      if dir.Some? {
        MoveKeepsConsistent(s, id, dir.value);
      }
    }
    var moved := Hunt(s, cfg, id, pick);
    assert id in moved.state.creatures;
    PredatorGrowKeepsConsistent(moved.state, id);
  }

  /**
   * A live prey that moves in a consistent world never collides and keeps the
   * world consistent; once mature (after growing) it spawns into the cell it
   * has just left, even on its first update.
   */
  lemma PreyMoveKeepsConsistent(s: State, cfg: Config, id: Id, pick: nat)
    requires Valid(s) && Consistent(s) && id in s.creatures && s.fish[id].species == Prey
    requires PickDirection(s, id, pick).Some?
    ensures var r := FishUpdate(s, cfg, id, pick);
      && r.Ok? && Consistent(r.state)
      && (s.fish[id].age + 1 >= Maturity(cfg, Prey) ==>
            r.state.nextId == s.nextId + 1 && s.nextId in r.state.creatures &&
            Cell(r.state, s.fish[id].position) == Some(s.nextId) &&
            r.state.fish[s.nextId].species == Prey && r.state.fish[id].age == 0)
      && (s.fish[id].age + 1 < Maturity(cfg, Prey) ==> r.state.nextId == s.nextId)
  {
    var t := PickDirection(s, id, pick).value;
    MoveKeepsConsistent(s, id, t);
    var s1 := Move(s, id, t).state;
    GrowKeepsConsistent(s1, id);
    var s2 := Grow(s1, id);
    assert Open(s2, s.fish[id].position);
    SpawnKeepsConsistent(s2, cfg, id);
  }

  /**
   * A live prey that cannot move keeps the world consistent as long as its
   * spawn does not land on an occupied cell.
   */
  lemma StuckPreyKeepsConsistent(s: State, cfg: Config, id: Id, pick: nat)
    requires Valid(s) && Consistent(s) && id in s.creatures && s.fish[id].species == Prey
    requires PickDirection(s, id, pick).None?
    requires s.fish[id].lastPosition.Some? ==> Open(s, s.fish[id].lastPosition.value)
    ensures var r := FishUpdate(s, cfg, id, pick);
      r.Ok? && Consistent(r.state)
  {
    GrowKeepsConsistent(s, id);
    SpawnKeepsConsistent(Grow(s, id), cfg, id);
  }

  /**
   * With the default maturity of two, a newborn's first update never spawns:
   * it only moves or stays, and comes out one tick old.
   */
  lemma DefaultMaturityDelaysSpawn(s: State, cfg: Config, id: Id, pick: nat)
    requires Valid(s) && id in s.fish && s.fish[id].age == 0 && s.fish[id].species !in cfg.maturity
    ensures var r := FishUpdate(s, cfg, id, pick).state;
      r.nextId == s.nextId && r.creatures == s.creatures && r.fish.Keys == s.fish.Keys && r.fish[id].age == 1
  {
    var dir := PickDirection(s, id, pick);
    var moved := if dir.Some? then Move(s, id, dir.value).state else s;
    assert Grow(moved, id).fish[id].age == 1;
  }

  /**
   * `advance` updates only its snapshot: every fish not in `order` keeps its
   * record, every fish created during the tick is a newborn (age 0, no last
   * position), and `order` names only fish that existed before the tick, so no
   * fish created during it is handed to an update.
   */
  lemma {:induction false} TickTouchesOnlySnapshot(s: State, cfg: Config, order: seq<Id>, picks: seq<nat>)
    requires Valid(s) && |picks| == |order| && forall id :: id in order ==> id in s.fish
    decreases |order|
    ensures TouchesOnly(s.fish, Tick(s, cfg, order, picks).state.fish, order)
    ensures forall id :: id in order ==> id < s.nextId
  {
    if order != [] {
      var step := CritterUpdate(s, cfg, order[0], picks[0]);
      if step.Ok? {
        assert forall id :: id in order[1..] ==> id in order;
        TickTouchesOnlySnapshot(step.state, cfg, order[1..], picks[1..]);
        TouchesOnlyStep(s.fish, step.state.fish, Tick(step.state, cfg, order[1..], picks[1..]).state.fish, order);
      }
    }
  }

  /** Records outside `ids` are unchanged and every record new in `r` is a newborn. */
  ghost predicate TouchesOnly(s: map<Id, Fish>, r: map<Id, Fish>, ids: seq<Id>) {
    && (forall j :: j in s && j !in ids ==> j in r && r[j] == s[j])
    && (forall j :: j in r && j !in s ==> Newborn(r[j]))
  }

  /** One update that touches only `ids[0]`, followed by updates touching only the rest. */
  lemma TouchesOnlyStep(s: map<Id, Fish>, s1: map<Id, Fish>, r: map<Id, Fish>, ids: seq<Id>)
    requires |ids| > 0 && forall id :: id in ids ==> id in s
    requires forall j :: j in s && j != ids[0] ==> j in s1 && s1[j] == s[j]
    requires forall j :: j in s1 && j !in s ==> Newborn(s1[j])
    requires TouchesOnly(s1, r, ids[1..])
    ensures TouchesOnly(s, r, ids)
  {
    forall j | j in s && j !in ids
      ensures j in r && r[j] == s[j]
    {
      assert j !in ids[1..];
    }
    forall j | j in r && j !in s
      ensures Newborn(r[j])
    {
      if j in s1 {
        assert j !in ids[1..];
      }
    }
  }

  /**
   * The tick that breaks `Consistent`, first half: a live predator that finds a
   * prey eats it and keeps the world consistent, but the eaten prey's record
   * still says it stands on the cell where the predator now is.
   */
  lemma PredatorEatsPrey(s: State, cfg: Config, pred: Id, prey: Id, pick: nat)
    requires Valid(s) && Consistent(s) && pred in s.creatures && s.fish[pred].species == Predator
    requires PickMeal(s, pred, pick).Some? && Cell(s, PickMeal(s, pred, pick).value) == Some(prey)
    requires s.fish[pred].energy + Yield(cfg, Prey) > 1
    ensures var c := PickMeal(s, pred, pick).value;
      var r := PredatorUpdate(s, cfg, pred, pick);
      && r.Ok? && Consistent(r.state)
      && prey in r.state.fish && prey !in r.state.creatures && r.state.fish[prey].species == Prey
      && r.state.fish[prey] == s.fish[prey] && r.state.fish[prey].position == c
      && pred in r.state.creatures && Cell(r.state, c) == Some(pred) && r.state.fish[pred].position == c
      && r.state.fish[pred].energy == s.fish[pred].energy + Yield(cfg, Prey) - 1
  {
    var c := PickMeal(s, pred, pick).value;
    ChompKeepsConsistent(s, cfg, pred, c);
    PredatorUpdateKeepsConsistent(s, cfg, pred, pick);
    var r := PredatorUpdate(s, cfg, pred, pick).state;
    var h := Hunt(s, cfg, pred, pick).state;
    assert h == Chomp(s, cfg, pred, c).state;
    assert pred in h.creatures && h.fish[pred].energy - 1 > 0;
    PredatorGrowKeepsConsistent(h, pred);
  }

  /**
   * The tick that breaks `Consistent`, second half: a dead prey whose record
   * points at a live fish's cell still acts when its turn in the snapshot comes;
   * if it has an open neighbour it moves there and clears that cell, so the live
   * fish is no longer in its cell.
   */
  lemma EatenPreyBlanksPredator(s: State, cfg: Config, prey: Id, pred: Id, pick: nat)
    requires Valid(s) && prey in s.fish && s.fish[prey].species == Prey && prey !in s.creatures
    requires pred in s.creatures && Cell(s, s.fish[prey].position) == Some(pred)
    requires s.fish[pred].position == s.fish[prey].position
    requires PickDirection(s, prey, pick).Some?
    ensures var r := FishUpdate(s, cfg, prey, pick);
      && r.Ok? && pred in r.state.creatures
      && Cell(r.state, s.fish[prey].position) != Some(pred) && !Consistent(r.state)
  {
    MovingFishVacates(s, cfg, prey, pick);
    var r := FishUpdate(s, cfg, prey, pick).state;
    assert pred != prey && pred < s.nextId;
    assert r.fish[pred] == s.fish[pred];
    MisplacedBreaksConsistency(r, pred);
  }

  /** A cell open before a predator eats is still open after its update. */
  lemma EatingKeepsOpenCell(s: State, cfg: Config, pred: Id, pick: nat, q: Position)
    requires Valid(s) && Consistent(s) && pred in s.creatures && s.fish[pred].species == Predator
    requires PickMeal(s, pred, pick).Some?
    requires s.fish[pred].energy + Yield(cfg, Prey) > 1
    requires InGrid(s, q) && Open(s, q)
    ensures Open(PredatorUpdate(s, cfg, pred, pick).state, q)
  {
    var c := PickMeal(s, pred, pick).value;
    ChompKeepsConsistent(s, cfg, pred, c);
    var fed := Feed(s, cfg, pred, c);
    assert s.fish[Cell(s, c).value].position == c;
    assert Cell(fed, q) == Cell(s, q);
    var h := Chomp(s, cfg, pred, c);
    assert Cell(h.state, q) == Cell(fed, q);
    assert Hunt(s, cfg, pred, pick) == h;
    assert h.state.fish[pred].energy - 1 > 0;
  }

  /**
   * So `advance` does not keep `Consistent`: in a consistent world where a
   * predator's turn comes first in the snapshot and it eats a prey, the eaten
   * prey's own turn (it has an open neighbour `q`, whatever its draw) leaves
   * the predator outside its cell. `TickOfTwo` makes the two turns the tick
   * over `[pred, prey]`.
   */
  lemma TickBreaksConsistency(s: State, cfg: Config, pred: Id, prey: Id, pick1: nat, pick2: nat, q: Position)
    requires Valid(s) && Consistent(s) && pred in s.creatures && s.fish[pred].species == Predator
    requires PickMeal(s, pred, pick1).Some? && Cell(s, PickMeal(s, pred, pick1).value) == Some(prey)
    requires s.fish[pred].energy + Yield(cfg, Prey) > 1
    requires q in Neighbours(s, PickMeal(s, pred, pick1).value) && Open(s, q)
    ensures var r := CritterUpdate(CritterUpdate(s, cfg, pred, pick1).state, cfg, prey, pick2);
      r.Ok? && pred in r.state.creatures && !Consistent(r.state)
  {
    var c := PickMeal(s, pred, pick1).value;
    PredatorEatsPrey(s, cfg, pred, prey, pick1);
    EatingKeepsOpenCell(s, cfg, pred, pick1, q);
    var s1 := PredatorUpdate(s, cfg, pred, pick1).state;
    assert CritterUpdate(s, cfg, pred, pick1).state == s1;
    assert prey in s1.fish && s1.fish[prey].species == Prey && s1.fish[prey].position == c;
    assert q in Neighbours(s1, s1.fish[prey].position) && Open(s1, q);
    EatenPreyBlanksPredator(s1, cfg, prey, pred, pick2);
    assert CritterUpdate(s1, cfg, prey, pick2) == FishUpdate(s1, cfg, prey, pick2);
  }

  /** A two-entry tick whose first update succeeds is the two updates in order. */
  lemma TickOfTwo(s: State, cfg: Config, a: Id, b: Id, pick1: nat, pick2: nat)
    requires Valid(s) && a in s.fish && b in s.fish && CritterUpdate(s, cfg, a, pick1).Ok?
    ensures Tick(s, cfg, [a, b], [pick1, pick2]) ==
      CritterUpdate(CritterUpdate(s, cfg, a, pick1).state, cfg, b, pick2)
  {
    var first := CritterUpdate(s, cfg, a, pick1);
    var second := CritterUpdate(first.state, cfg, b, pick2);
    assert [a, b][1..] == [b] && [pick1, pick2][1..] == [pick2];
    assert Tick(first.state, cfg, [b], [pick2]) == if second.CollisionError? then second else Tick(second.state, cfg, [], []);
  }

  /**
   * Any prey that moves, live or dead, leaves behind a cell that is empty or
   * holds its newborn, whatever stood there before: `Toroid.update` clears the
   * fish's last position unconditionally.
   */
  lemma MovingFishVacates(s: State, cfg: Config, id: Id, pick: nat)
    requires Valid(s) && id in s.fish && s.fish[id].species == Prey
    requires PickDirection(s, id, pick).Some?
    ensures var r := FishUpdate(s, cfg, id, pick);
      && (r.Ok? <==> Open(s, PickDirection(s, id, pick).value))
      && (r.Ok? ==> Cell(r.state, s.fish[id].position) in {None, Some(s.nextId)})
      && s.creatures <= r.state.creatures
  {
    var t := PickDirection(s, id, pick).value;
    var m := Move(s, id, t);
    if m.Ok? {
      var g := Grow(m.state, id);
      assert Cell(g, s.fish[id].position) == None;
      var sp := Spawn(g, cfg, id);
      assert g.nextId == s.nextId;
      SpawnKeepsCreatures(g, cfg, id);
    }
  }

  lemma SpawnKeepsCreatures(s: State, cfg: Config, id: Id)
    requires Valid(s) && id in s.fish
    ensures s.creatures <= Spawn(s, cfg, id).creatures
  {
  }

  /** A live fish that is not in the cell its record names makes the world inconsistent. */
  lemma MisplacedBreaksConsistency(s: State, id: Id)
    requires Valid(s) && id in s.creatures && Cell(s, s.fish[id].position) != Some(id)
    ensures !Consistent(s)
  {
  }

  /**
   * A prey that cannot move still spawns into its last position when it is
   * mature, whatever stands there: in a consistent world, a live fish in that
   * cell stays in `creatures` but loses its cell to the newborn.
   */
  lemma StuckPreyOverwrites(s: State, cfg: Config, id: Id, other: Id, pick: nat)
    requires Valid(s) && Consistent(s) && id in s.fish && s.fish[id].lastPosition.Some?
    requires PickDirection(s, id, pick).None? && s.fish[id].age + 1 >= Maturity(cfg, s.fish[id].species)
    requires other in s.creatures && other != id && Cell(s, s.fish[id].lastPosition.value) == Some(other)
    ensures var r := FishUpdate(s, cfg, id, pick);
      && r.Ok? && other in r.state.creatures
      && Cell(r.state, s.fish[id].lastPosition.value) == Some(s.nextId) && !Consistent(r.state)
  {
    var g := Grow(s, id);
    var r := Spawn(g, cfg, id);
    assert r.fish[other] == s.fish[other] && other in r.creatures;
    MisplacedBreaksConsistency(r, other);
  }

  /** Two fish on a one-row, two-column toroid, the left one a prey that came from the right cell. */
  function StuckWorld(): (r: State)
    ensures Valid(r) && Consistent(r)
  {
    State(2, 1, [[Some(0), Some(1)]],
          map[0 := Fish(Prey, Position(0, 0), Some(Position(1, 0)), 1, 0),
              1 := Fish(Prey, Position(1, 0), None, 0, 0)],
          {0, 1}, 2)
  }

  /**
   * The overwrite happens from a consistent world: with default maturity 2, the
   * prey 0 of `StuckWorld` (age 1) has no open neighbour, grows to 2 and spawns
   * onto fish 1.
   */
  lemma StuckWorldOverwrites()
    ensures var r := FishUpdate(StuckWorld(), Config(map[], map[], 0), 0, 0);
      r.Ok? && 1 in r.state.creatures && !Consistent(r.state)
  {
    var s := StuckWorld();
    assert forall p: Position :: InGrid(s, p) ==> p.y == 0 && (p.x == 0 || p.x == 1);
    assert PickDirection(s, 0, 0).None?;
    StuckPreyOverwrites(s, Config(map[], map[], 0), 0, 1, 0);
  }
}
